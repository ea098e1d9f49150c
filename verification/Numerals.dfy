/** What normalising a value cell does to the number written in it. */
module Numerals {
  import opened Strings
  import opened FactKeys

  /** A written decimal: digits, or digits around one point. */
  predicate IsDecimal(s: string) {
    IsFractional(s) || (s != [] && AllDigits(s))
  }

  function Digit(c: char): int {
    c as int - '0' as int
  }

  function Whole(s: string): int {
    if s == [] then 0 else 10 * Whole(s[..|s| - 1]) + Digit(s[|s| - 1])
  }

  function Fraction(s: string): real {
    if s == [] then 0.0 else (Digit(s[0]) as real + Fraction(s[1..])) / 10.0
  }

  /** The number a decimal denotes. */
  function Number(s: string): real {
    var p := Point(s);
    Whole(s[..p]) as real + if p < |s| then Fraction(s[p + 1..]) else 0.0
  }

  /** No superfluous zero in front of the point. */
  predicate NoLeadingZero(s: string) {
    var p := Point(s);
    p == 1 || (p > 1 && s[0] != '0')
  }

  /** The two sides of the point of a written fraction. */
  lemma {:induction false} PointOf(w: string, f: string)
    requires AllDigits(w)
    ensures var s := w + "." + f; Point(s) == |w| && s[..|w|] == w && s[|w| + 1..] == f
    ensures Point(w) == |w| && w[..|w|] == w
  {
    var s := w + "." + f;
    assert s[|w|] == '.';
    assert forall i | 0 <= i < |w| :: s[i] == w[i];
  }

  /** Trimming a fraction: the digits behind the point lose their trailing zeros, and the point goes with the last of them. */
  lemma {:induction false} TrimOf(w: string, f: string)
    requires w != [] && AllDigits(w) && AllDigits(f)
    ensures TrimZeros(w + "." + f) == if RStrip(f, {'0'}) == [] then w else w + "." + RStrip(f, {'0'})
  {
    var g := RStrip(f, {'0'});
    RStripSuffix(w + ".", f, {'0'});
    if g == [] {
      assert RStrip(w + ".", {'0'}) == w + ".";
      RStripSuffix(w, ".", {'.'});
      assert RStrip(".", {'.'}) == RStrip("."[..0], {'.'}) == [];
      assert IsDigit(w[|w| - 1]);
    } else {
      assert IsDigit(f[|g| - 1]) && (w + "." + g)[|w| + |g|] == g[|g| - 1];
    }
  }

  lemma {:induction false} FractionTrim(f: string)
    ensures Fraction(RStrip(f, {'0'})) == Fraction(f)
  {
    if f != [] {
      RStripSuffix(f[..1], f[1..], {'0'});
      assert f == f[..1] + f[1..];
      FractionTrim(f[1..]);
      var g := RStrip(f[1..], {'0'});
      if g == [] {
        assert RStrip(f[..1], {'0'}) == if f[0] == '0' then RStrip(f[..1][..0], {'0'}) else f[..1];
        assert f[..1][1..] == [];
      } else {
        assert (f[..1] + g)[1..] == g;
      }
    }
  }

  /** A decimal contains nothing the normalisation deletes. */
  lemma {:induction false} DecimalText(s: string)
    requires IsDecimal(s)
    ensures forall i | 0 <= i < |s| :: DigitOrDot(s[i])
    ensures IsDigit(s[|s| - 1]) && LooksNumeric(s)
  {
  }

  lemma {:induction false} DecimalValue(s: string)
    requires IsDecimal(s)
    ensures Squeeze(s) == s && NoCommas(s) == s
    ensures Value(s) == if IsFractional(s) then TrimZeros(s) else s
    ensures |Value(s)| <= |s|
  {
    DecimalText(s);
    EraseNothing(s, SPACES + {'/', '·'});
    EraseNothing(s, {','});
  }

  lemma {:induction false} FractionParts(s: string) returns (w: string, f: string)
    requires IsDecimal(s) && IsFractional(s)
    ensures w != [] && AllDigits(w) && AllDigits(f) && (f == [] || f[|f| - 1] != '0')
    ensures TrimZeros(s) == (if f == [] then w else w + "." + f)
    ensures Number(s) == Whole(w) as real + Fraction(f) && w == s[..Point(s)]
  {
    var p := Point(s);
    var tail := s[p + 1..];
    w, f := s[..p], RStrip(tail, {'0'});
    Around(s, p);
    TrimOf(w, tail);
    FractionTrim(tail);
  }

  /** The whole part and the significant fraction of a decimal. */
  lemma {:induction false} CanonicalParts(s: string) returns (w: string, f: string)
    requires IsDecimal(s)
    ensures w != [] && AllDigits(w) && AllDigits(f) && (f == [] || f[|f| - 1] != '0')
    ensures Value(s) == (if f == [] then w else w + "." + f)
    ensures Number(s) == Whole(w) as real + Fraction(f)
    ensures NoLeadingZero(s) <==> |w| == 1 || w[0] != '0'
  {
    DecimalValue(s);
    if IsFractional(s) {
      w, f := FractionParts(s);
    } else {
      w, f := s, [];
      PointOf(w, []);
    }
  }

  lemma {:induction false} FractionText(w: string, f: string)
    requires w != [] && AllDigits(w) && AllDigits(f) && f != [] && f[|f| - 1] != '0'
    ensures var s := w + "." + f;
            IsDecimal(s) && Value(s) == s && Number(s) == Whole(w) as real + Fraction(f) && Point(s) == |w|
  {
    var s := w + "." + f;
    PointOf(w, f);
    assert IsFractional(s);
    DecimalValue(s);
    TrimOf(w, f);
    RStripKept(f, {'0'});
  }

  lemma {:induction false} WholeText(w: string)
    requires w != [] && AllDigits(w)
    ensures IsDecimal(w) && Value(w) == w && Number(w) == Whole(w) as real && Point(w) == |w|
  {
    PointOf(w, []);
    DecimalValue(w);
  }

  /** A canonical text is its own normal form, and denotes the number of its parts. */
  lemma {:induction false} CanonicalText(w: string, f: string)
    requires w != [] && AllDigits(w) && AllDigits(f) && (f == [] || f[|f| - 1] != '0')
    ensures var s := if f == [] then w else w + "." + f;
            IsDecimal(s) && Value(s) == s && Number(s) == Whole(w) as real + Fraction(f) && Point(s) == |w|
  {
    if f == [] {
      WholeText(w);
    } else {
      FractionText(w, f);
    }
  }

  /** Normalising the text of a number never changes the number, whatever separators it was written with. */
  lemma {:induction false} ValuePreservesNumber(v: string)
    requires IsDecimal(NoCommas(Squeeze(v)))
    ensures IsDecimal(Value(v)) && Number(Value(v)) == Number(NoCommas(Squeeze(v)))
  {
    var d := NoCommas(Squeeze(v));
    DecimalValue(d);
    assert Value(v) == Value(d);
    var w, f := CanonicalParts(d);
    CanonicalText(w, f);
  }

  /** Normalising twice is normalising once, for every text. */
  lemma {:induction false} ValueIdempotent(v: string)
    ensures Value(Value(v)) == Value(v)
  {
    var d := NoCommas(Squeeze(v));
    if IsFractional(d) {
      DecimalValue(d);
      var w, f := CanonicalParts(d);
      CanonicalText(w, f);
    } else {
      EraseMembers(v, SPACES + {'/', '·'});
      EraseMembers(Squeeze(v), {','});
      EraseNothing(d, SPACES + {'/', '·'});
      EraseNothing(d, {','});
    }
  }

  lemma {:induction false} FractionBounds(s: string)
    requires AllDigits(s)
    ensures 0.0 <= Fraction(s) < 1.0
    ensures s != [] && s[|s| - 1] != '0' ==> Fraction(s) > 0.0
  {
    if s != [] {
      assert s[0] in s;
      FractionBounds(s[1..]);
    }
  }

  lemma {:induction false} FractionUnique(a: string, b: string)
    requires AllDigits(a) && AllDigits(b) && Fraction(a) == Fraction(b)
    requires a == [] || a[|a| - 1] != '0'
    requires b == [] || b[|b| - 1] != '0'
    ensures a == b
  {
    FractionBounds(a);
    FractionBounds(b);
    if a != [] && b != [] {
      FractionBounds(a[1..]);
      FractionBounds(b[1..]);
      FractionUnique(a[1..], b[1..]);
      assert a == [a[0]] + a[1..] && b == [b[0]] + b[1..];
    }
  }

  lemma {:induction false} WholeBounds(s: string)
    requires AllDigits(s)
    ensures Whole(s) >= 0
    ensures s != [] && s[0] != '0' ==> Whole(s) > 0
  {
    if s != [] {
      assert s[|s| - 1] in s;
      WholeBounds(s[..|s| - 1]);
    }
  }

  lemma {:induction false} WholeUnique(a: string, b: string)
    requires AllDigits(a) && AllDigits(b) && Whole(a) == Whole(b)
    requires |a| == 1 || (|a| > 1 && a[0] != '0')
    requires |b| == 1 || (|b| > 1 && b[0] != '0')
    ensures a == b
    decreases |a| + |b|
  {
    var a', b' := a[..|a| - 1], b[..|b| - 1];
    assert IsDigit(a[|a| - 1]) && IsDigit(b[|b| - 1]);
    WholeBounds(a');
    WholeBounds(b');
    assert a == a' + [a[|a| - 1]] && b == b' + [b[|b| - 1]];
    if |a| > 1 && |b| > 1 {
      WholeUnique(a', b');
    }
  }

  /** Two decimals without superfluous leading zeros get the same text exactly when they are the same number. */
  lemma {:induction false} ValueCanonical(a: string, b: string)
    requires IsDecimal(a) && IsDecimal(b) && NoLeadingZero(a) && NoLeadingZero(b)
    ensures Value(a) == Value(b) <==> Number(a) == Number(b)
  {
    var wa, fa := CanonicalParts(a);
    var wb, fb := CanonicalParts(b);
    CanonicalText(wa, fa);
    CanonicalText(wb, fb);
    if Number(a) == Number(b) {
      FractionBounds(fa);
      FractionBounds(fb);
      WholeUnique(wa, wb);
      FractionUnique(fa, fb);
    }
  }

  // Gluing a unit to its number

  /** Whether a squeezed unit text can be read back off the end of a number. */
  predicate Detachable(u: string) {
    u != "" && ',' !in u && NoDigit(u) && (u[0] != '.' || |u| == 1)
  }

  /** The cells whose key is read from value and unit, rather than from the whole text. */
  predicate IsCell(x: Fact) {
    var a := Squeeze(x.attribute);
    a != "메뉴번호" && x.polarity != "NEGATE" && Column(a) !in {"판매가", "분류", "제조순서"}
  }

  /** A number with its unit glued on gets the key of number and unit written apart exactly when
      the number is already canonical and the unit can be read back, or there is no unit at all. */
  lemma {:induction false} GluedUnitKey(x: Fact, d: string, u: string)
    requires IsCell(x) && IsDecimal(d)
    ensures KeyOf(x.(value := d + u, unit := "")) == KeyOf(x.(value := d, unit := u)) <==>
            Squeeze(u) == "" || (Value(d) == d && Detachable(Squeeze(u)))
  {
    GluedCellKey(d, u);
  }

  /** Commas and digits of a unit text survive its normalisation, and none appear. */
  lemma {:induction false} UnitMark(u: string, c: char)
    requires c == ',' || IsDigit(c)
    ensures c in Unit(u) <==> c in Squeeze(u)
  {
    var s := Squeeze(u);
    var v := Lower(s);
    if c in s {
      var i :| 0 <= i < |s| && s[i] == c;
      assert v[i] == c;
    }
    if c in v {
      var i :| 0 <= i < |v| && v[i] == c;
      assert s[i] == c;
    }
    assert v in UNIT_SPELLINGS ==> v == "펌프" || v == "레들" || v == "°c" || v == "g)" || v == "shot" || v == "개";
  }

  lemma {:induction false} UnitEmpty(u: string)
    ensures Unit(u) == "" <==> Squeeze(u) == ""
    ensures Squeeze(Squeeze(u)) == Squeeze(u) && Unit(Squeeze(u)) == Unit(u)
  {
    EraseMembers(u, SPACES + {'/', '·'});
    EraseNothing(Squeeze(u), SPACES + {'/', '·'});
    var v := Lower(Squeeze(u));
    assert v in UNIT_SPELLINGS ==> v == "펌프" || v == "레들" || v == "°c" || v == "g)" || v == "shot" || v == "개";
  }

  /** A text ending in a digit has no unit glued to it. */
  lemma {:induction false} ApartKey(v: string, u: string)
    requires LooksNumeric(v) && IsDigit(v[|v| - 1])
    ensures CellKey(v, u) == Some(Num(v, u))
  {
  }

  lemma {:induction false} DecimalKey(d: string, u: string)
    requires IsDecimal(d)
    ensures |Value(d)| <= |d|
    ensures CellKey(Value(d), u) == Some(Num(Value(d), u))
  {
    var w, f := CanonicalParts(d);
    CanonicalText(w, f);
    DecimalValue(d);
    DecimalText(Value(d));
    ApartKey(Value(d), u);
  }

  predicate CommaShows(su: string) {
    ',' in su ==> Unit(NoCommas(su)) != Unit(su)
  }

  lemma {:induction false} CommaShown(su: string)
    requires Squeeze(su) == su
    ensures CommaShows(su)
  {
    UnitMark(su, ',');
    UnitMark(NoCommas(su), ',');
    EraseMembers(su, {','});
    EraseMembers(NoCommas(su), SPACES + {'/', '·'});
  }

  lemma {:induction false} GluedCellKey(d: string, u: string)
    requires IsDecimal(d)
    ensures CellKey(Value(d + u), Unit("")) == CellKey(Value(d), Unit(u)) <==>
            Squeeze(u) == "" || (Value(d) == d && Detachable(Squeeze(u)))
  {
    var su, nu := Squeeze(u), NoCommas(Squeeze(u));
    GluedText(d, u);
    UnitEmpty(u);
    UnitEmpty("");
    DecimalKey(d, Unit(u));
    EraseMembers(su, {','});
    if nu == "" {
      assert d + nu == d && (su == "" || su[0] in su);
      DecimalValue(d);
      DecimalKey(d, "");
    } else if !NoDigit(nu) {
      DigitInUnit(d, u);
    } else {
      GluedPlainUnit(d, nu, Unit(nu));
      NoFractionBehindUnit(d, nu);
      CommaShown(su);
      if ',' !in su {
        EraseNothing(su, {','});
      }
    }
  }

  /** A unit with a digit in it is never read back. */
  lemma {:induction false} DigitInUnit(d: string, u: string)
    requires !NoDigit(NoCommas(Squeeze(u)))
    ensures !NoDigit(Squeeze(u))
    ensures forall v :: CellKey(v, "") != Some(Num(Value(d), Unit(u)))
  {
    var su, nu := Squeeze(u), NoCommas(Squeeze(u));
    var i :| 0 <= i < |nu| && IsDigit(nu[i]);
    var c := nu[i];
    EraseMembers(su, {','});
    assert c in nu;
    UnitMark(u, c);
    forall v
      ensures CellKey(v, "") != Some(Num(Value(d), Unit(u)))
    {
      GluedDigitUnit(v, c);
    }
  }

  /** A key read off one glued text never has a digit in its unit. */
  lemma {:induction false} GluedDigitUnit(v: string, c: char)
    requires IsDigit(c)
    ensures var k := CellKey(v, ""); k.Some? && k.value.Num? ==> c !in k.value.numUnit
  {
    var split := UnitSplit(v, |v|);
    if split.Some? {
      var rest := v[split.value..];
      UnitMark(rest, c);
      EraseMembers(rest, SPACES + {'/', '·'});
    }
  }

  predicate NoDigit(s: string) {
    forall i | 0 <= i < |s| :: !IsDigit(s[i])
  }

  lemma {:induction false} NoFractionBehindUnit(d: string, u: string)
    requires u != "" && NoDigit(u)
    ensures !IsFractional(d + u)
  {
    var g := d + u;
    assert g[|g| - 1] == u[|u| - 1];
    if IsFractional(g) {
      DecimalText(g);
      assert false;
    }
  }

  lemma {:induction false} GluedPlainUnit(d: string, u: string, unit: string)
    requires IsDecimal(d) && u != "" && NoDigit(u) && unit == Unit(u)
    ensures var k := CellKey(d + u, "");
            k.Some? && k.value.Num? &&
            if u[0] != '.' || |u| == 1 then k == Some(Num(d, unit)) else |k.value.number| > |d|
  {
    var g := d + u;
    DecimalText(d);
    assert UnitStartsAt(g, |d|);
    var k := UnitSplit(g, |g|).value;
    assert LooksNumeric(g[..k]);
    if u[0] != '.' || |u| == 1 {
      assert !DigitOrDot(g[|d|]) || |g| == |d| + 1;
      assert g[..k] == d && g[k..] == u;
    } else {
      assert UnitStartsAt(g, |d| + 1);
    }
  }

  lemma {:induction false} GluedText(d: string, u: string)
    requires IsDecimal(d)
    ensures NoCommas(Squeeze(d + u)) == d + NoCommas(Squeeze(u))
  {
    EraseConcat(d, u, SPACES + {'/', '·'});
    DecimalValue(d);
    EraseConcat(d, Squeeze(u), {','});
  }
}
