/** What the key of a fact and the text it is searched in are, written out by letter and place. */
module KeyForms {
  import opened Strings
  import opened FactKeys
  import opened Spelling

  // Squeezing and lower case

  const BLANKS := "\t\n\U{0B}\U{0C}\r\U{1C}\U{1D}\U{1E}\U{1F} \U{85}\U{A0}\U{1680}\U{2000}\U{2001}\U{2002}\U{2003}\U{2004}\U{2005}\U{2006}\U{2007}\U{2008}\U{2009}\U{200A}\U{2028}\U{2029}\U{202F}\U{205F}\U{3000}"

  lemma {:induction false} BlankFound(c: char)
    requires IsSpace(c)
    ensures c in BLANKS
  {
    var u := c as int;
    var k := if u <= 13 then u - 9 else if u <= 32 then u - 23 else if u == 0x85 then 10 else if u == 0xA0 then 11
             else if u == 0x1680 then 12 else if u <= 0x200A then u - 0x2000 + 13 else if u <= 0x2029 then u - 0x2028 + 24
             else if u == 0x202F then 26 else if u == 0x205F then 27 else 28;
    var b := BLANKS;
    assert |b| == 29;
    assert b[k] as int == u;
    assert b[k] == c;
  }

  /** The characters white-space patterns match are these twenty-nine. */
  lemma {:induction false} BlankExactly(c: char)
    ensures IsSpace(c) <==> c in BLANKS
  {
    if IsSpace(c) {
      BlankFound(c);
    }
  }

  /** Squeezing drops blanks, slashes and middle dots, one by one, and keeps everything else in its place. */
  lemma {:induction false} SqueezeExactly(a: string, c: char, b: string)
    ensures Squeeze("") == ""
    ensures Squeeze(a + [c] + b) == Squeeze(a) + (if c in BLANKS || c == '/' || c == '·' then "" else [c]) + Squeeze(b)
  {
    BlankExactly(c);
    var drop := SPACES + {'/', '·'};
    EraseConcat(a + [c], b, drop);
    EraseConcat(a, [c], drop);
    assert [c][1..] == "";
  }

  const CAPITALS := "ABCDEFGHIJKLMNOPQRSTUVWXYZ"
  const SMALL := "abcdefghijklmnopqrstuvwxyz"

  /** The letters at one place of the alphabet. */
  predicate Paired(k: int, capital: char, small: char) {
    0 <= k < |CAPITALS| == |SMALL| && CAPITALS[k] == capital && SMALL[k] == small
  }

  lemma {:induction false} Alphabet(c: char)
    requires 'A' <= c <= 'Z'
    ensures Paired(c as int - 65, c, (c as int + 32) as char)
  {
    assert |CAPITALS| == 26 && |SMALL| == 26;
    assert CAPITALS[c as int - 65] as int == c as int;
    assert SMALL[c as int - 65] as int == c as int + 32;
  }

  lemma {:induction false} NoOther(k: int, capital: char, small: char)
    requires Paired(k, capital, small)
    ensures 'A' <= capital <= 'Z' && k == capital as int - 65
  {
    assert |CAPITALS| == 26;
    assert CAPITALS[k] as int == 65 + k;
  }

  /** A capital becomes the small letter of the same place in the alphabet; nothing else changes. */
  lemma {:induction false} LowerExactly(s: string, i: nat, small: char)
    requires i < |s|
    ensures Lower(s)[i] == small <==>
            if exists k, c :: Paired(k, s[i], c) then exists k :: Paired(k, s[i], small) else small == s[i]
  {
    if 'A' <= s[i] <= 'Z' {
      Alphabet(s[i]);
    }
    forall k, c | Paired(k, s[i], c)
      ensures 'A' <= s[i] <= 'Z' && k == s[i] as int - 65
    {
      NoOther(k, s[i], c);
    }
  }

  // Columns and units

  const HEADS: set<string> := {"판매가", "분류", "제조순서", "컵", "샷수", "얼음", "토핑", "재료"}

  predicate AboutBlender(a: string) {
    Contains(a, "블렌더") || Contains(a, "블랜더")
  }

  /** The column a squeezed attribute belongs to: the blender wherever it is mentioned, else the head it begins with. */
  predicate InColumn(a: string, c: string) {
    if AboutBlender(a) then c == "블렌더"
    else (c in HEADS && c <= a) || (c == "액상기타" && forall h | h in HEADS :: !(h <= a))
  }

  lemma {:induction false} OneHead(a: string, h: string, h': string)
    requires h in HEADS && h' in HEADS && h <= a && h' <= a
    ensures h == h'
  {
    assert h[0] == a[0] == h'[0];
  }

  lemma {:induction false} HeadOrRest(heads: seq<string>)
    requires heads != []
    ensures forall h :: h in heads <==> h == heads[0] || h in heads[1..]
  {
    assert heads == [heads[0]] + heads[1..];
  }

  lemma {:induction false} FirstHead(a: string, heads: seq<string>, otherwise: string)
    ensures (forall h | h in heads :: !(h <= a)) ==> FirstPrefix(a, heads, otherwise) == otherwise
    ensures (exists h :: h in heads && h <= a) ==> FirstPrefix(a, heads, otherwise) in heads && FirstPrefix(a, heads, otherwise) <= a
  {
    if heads != [] {
      FirstHead(a, heads[1..], otherwise);
      HeadOrRest(heads);
      if forall h | h in heads :: !(h <= a) {
        assert forall h | h in heads[1..] :: !(h <= a);
        assert heads[0] in heads;
        assert !(heads[0] <= a);
      }
    }
  }

  lemma {:induction false} HeadsListed()
    ensures forall h :: h in COLUMNS <==> h in HEADS
  {
    assert COLUMNS == ["판매가", "분류", "제조순서", "컵", "샷수", "얼음", "토핑", "재료"];
  }

  lemma {:induction false} HeadExactly(a: string, c: string)
    ensures FirstPrefix(a, COLUMNS, "액상기타") == c <==>
            (c in HEADS && c <= a) || (c == "액상기타" && forall h | h in HEADS :: !(h <= a))
  {
    FirstHead(a, COLUMNS, "액상기타");
    HeadsListed();
    var found := FirstPrefix(a, COLUMNS, "액상기타");
    if found in HEADS && found <= a && c in HEADS && c <= a {
      OneHead(a, found, c);
    }
  }

  lemma {:induction false} ColumnExactly(attribute: string, c: string)
    ensures Column(attribute) == c <==> InColumn(Squeeze(attribute), c)
  {
    var a := Squeeze(attribute);
    if !AboutBlender(a) {
      assert Column(attribute) == FirstPrefix(a, COLUMNS, "액상기타");
      HeadExactly(a, c);
    }
  }

  /** Units that are written for another one. */
  predicate Written(u: string, unit: string) {
    (u, unit) in {("펌프", "p"), ("레들", "래들"), ("°c", "℃"), ("g)", "g"), ("shot", "샷"), ("개", "ea")}
  }

  lemma {:induction false} UnitExactly(u: string, unit: string)
    ensures var v := Lower(Squeeze(u));
            Unit(u) == unit <==> Written(v, unit) || (unit == v && v !in {"펌프", "레들", "°c", "g)", "shot", "개"})
  {
  }

  // Values

  /** A value that is a whole number with a fraction loses the zeros at its end, and the point if nothing else is left behind
      it; any other value stays as it is, squeezed and without commas. */
  lemma {:induction false} ValueExactly(v: string)
    ensures var (w, r) := (NoCommas(Squeeze(v)), Value(v));
            if !IsFractional(w) then r == w else
              && r <= w && r != "" && r[|r| - 1] != '.' && ('.' in r ==> r[|r| - 1] != '0')
              && (|r| == Point(w) || |r| > Point(w) + 1) && forall i | |r| <= i < |w| :: w[i] == '0' || w[i] == '.'
  {
    var w := NoCommas(Squeeze(v));
    if IsFractional(w) {
      Trimmed(w);
    }
  }

  lemma {:induction false} Trimmed(w: string)
    requires IsFractional(w)
    ensures var r := TrimZeros(w);
            && r <= w && r != "" && r[|r| - 1] != '.' && ('.' in r ==> r[|r| - 1] != '0')
            && (|r| == Point(w) || |r| > Point(w) + 1) && forall i | |r| <= i < |w| :: w[i] == '0' || w[i] == '.'
  {
    var p, z := Point(w), RStrip(w, {'0'});
    assert w[..p][p - 1] == w[p - 1] && IsDigit(w[p - 1]);
    assert |z| > p;
    if |z| > p + 1 {
      assert w[p + 1..][|z| - 1 - (p + 1)] == z[|z| - 1] && z[|z| - 1] == w[|z| - 1];
      assert TrimZeros(w) == z;
    } else {
      assert z[p] == '.' && z[..p] == w[..p];
      assert TrimZeros(w) == w[..p];
      assert forall i | 0 <= i < p :: w[..p][i] != '.';
    }
  }

  // Keys

  /** The number and the unit glued to it part at `k`: as late as they can. */
  predicate PartsAt(v: string, k: nat) {
    && 0 < k < |v| && (forall i | 0 <= i < k :: DigitOrDot(v[i])) && (forall i | k <= i < |v| :: !IsDigit(v[i]))
    && (v[k] == '.' ==> k == |v| - 1)
  }

  /** Value and unit of a cell: as given, unless the unit is missing and stands behind the number in the value. */
  ghost predicate Measured(v: string, u: string, w: string, z: string) {
    || (w == v && z == u && (u == "" ==> forall k: nat :: !PartsAt(v, k)))
    || (u == "" && exists k: nat :: PartsAt(v, k) && w == v[..k] && z == Unit(v[k..]))
  }

  lemma {:induction false} LatestParts(v: string, k: nat)
    ensures PartsAt(v, k) <==> UnitStartsAt(v, k) && forall j: nat | k < j <= |v| :: !UnitStartsAt(v, j)
  {
    if UnitStartsAt(v, k) {
      if v[k] == '.' && k < |v| - 1 {
        assert UnitStartsAt(v, k + 1);
      }
      if v[k] != '.' {
        assert forall j: nat | k < j <= |v| :: !UnitStartsAt(v, j);
      }
    }
  }

  lemma {:induction false} MeasuredExactly(v: string, u: string, w: string, z: string)
    ensures var split := if u == "" then UnitSplit(v, |v|) else None;
            Measured(v, u, w, z) <==>
            w == (if split.Some? then v[..split.value] else v) && z == if split.Some? then Unit(v[split.value..]) else u
  {
    if u == "" {
      var split := UnitSplit(v, |v|);
      forall k: nat
        ensures PartsAt(v, k) <==> split == Some(k)
      {
        LatestParts(v, k);
      }
    }
  }

  /** Digits, points and tildes, and at least one. */
  predicate Numeric(w: string) {
    w != "" && forall c | c in w :: c in {'0', '1', '2', '3', '4', '5', '6', '7', '8', '9', '.', '~'}
  }

  lemma {:induction false} NumericExactly(w: string)
    ensures LooksNumeric(w) <==> Numeric(w)
  {
    if Numeric(w) {
      forall i | 0 <= i < |w|
        ensures DigitOrDot(w[i]) || w[i] == '~'
      {
        assert w[i] in w;
      }
    }
    if LooksNumeric(w) {
      forall c | c in w
        ensures c in {'0', '1', '2', '3', '4', '5', '6', '7', '8', '9', '.', '~'}
      {
        var i :| 0 <= i < |w| && w[i] == c;
        assert DigitOrDot(w[i]) || w[i] == '~';
      }
    }
  }

  /** The attribute is none of those whose values are not measured. */
  predicate IsCell(a: string) {
    !InColumn(a, "판매가") && !InColumn(a, "분류") && !InColumn(a, "제조순서")
  }

  /** A fact has this key: a denial its column, a price its value, a category its value without HOT and ICE, a step its
      place and text, and a cell its value with its unit, as a number or as a text; menu numbers have none. */
  ghost predicate HasKey(x: Fact, k: Key) {
    var a := Squeeze(x.attribute);
    a != "메뉴번호" &&
    match k
    case Neg(column) => x.polarity == "NEGATE" && InColumn(a, column)
    case Price(price) => x.polarity != "NEGATE" && InColumn(a, "판매가") && price == Value(x.value)
    case Step(order, step) =>
      x.polarity != "NEGATE" && InColumn(a, "제조순서") && order == x.stepOrder && step == Squeeze(x.value)
    case Num(number, unit) =>
      x.polarity != "NEGATE" && IsCell(a) && Numeric(number) && Measured(Value(x.value), Unit(x.unit), number, unit)
    case Txt(text, unit) =>
      x.polarity != "NEGATE" &&
      if InColumn(a, "분류") then text == EraseTemperature(Squeeze(x.value)) && unit == ""
      else IsCell(a) && text != "" && !Numeric(text) && Measured(Value(x.value), Unit(x.unit), text, unit)
  }

  lemma {:induction false} KeyExactly(x: Fact, k: Key)
    ensures KeyOf(x) == Some(k) <==> HasKey(x, k)
  {
    var a := Squeeze(x.attribute);
    ColumnsExactly(x.attribute, k);
    if a != "메뉴번호" && x.polarity != "NEGATE" && IsCell(a) {
      CellExactly(Value(x.value), Unit(x.unit), k);
    }
  }

  lemma {:induction false} ColumnsExactly(attribute: string, k: Key)
    ensures var (a, c) := (Squeeze(attribute), Column(Squeeze(attribute)));
            && (c == "판매가" <==> InColumn(a, "판매가")) && (c == "분류" <==> InColumn(a, "분류"))
            && (c == "제조순서" <==> InColumn(a, "제조순서"))
            && (k.Neg? ==> (c == k.column <==> InColumn(a, k.column)))
  {
    var a := Squeeze(attribute);
    SqueezedTwice(attribute);
    ColumnExactly(a, "판매가");
    ColumnExactly(a, "분류");
    ColumnExactly(a, "제조순서");
    if k.Neg? {
      ColumnExactly(a, k.column);
    }
  }

  lemma {:induction false} CellExactly(v: string, u: string, k: Key)
    ensures CellKey(v, u) == Some(k) <==>
            match k
            case Num(number, unit) => Numeric(number) && Measured(v, u, number, unit)
            case Txt(text, unit) => text != "" && !Numeric(text) && Measured(v, u, text, unit)
            case _ => false
  {
    match k
    case Num(number, unit) =>
      MeasuredExactly(v, u, number, unit);
      NumericExactly(number);
    case Txt(text, unit) =>
      MeasuredExactly(v, u, text, unit);
      NumericExactly(text);
    case _ =>
  }

  // Needles

  /** Counts of times are written either way. */
  function Turns(u: string): string {
    seq(|u|, i requires 0 <= i < |u| => if u[i] == '회' then '번' else u[i])
  }

  lemma {:induction false} TurnsReplaced(u: string)
    ensures Replace(u, "회", "번") == Turns(u)
  {
    if u != "" {
      TurnsReplaced(u[1..]);
      assert Turns(u) == [if u[0] == '회' then '번' else u[0]] + Turns(u[1..]);
    }
  }

  /** What is searched for in a vote: the number with its unit, the step or the text; nothing for prices and denials. */
  lemma {:induction false} NeedleExactly(k: Key)
    ensures k.Num? ==> VoteNeedle(k) == Normal(k.number + Turns(k.numUnit))
    ensures k.Step? ==> VoteNeedle(k) == Normal(k.step)
    ensures k.Txt? ==> VoteNeedle(k) == Normal(k.text)
    ensures k.Price? || k.Neg? ==> VoteNeedle(k) == ""
  {
    if k.Num? {
      TurnsReplaced(k.numUnit);
    }
  }

  // The text of a fact

  /** What the fact states, in the order in which it is searched. */
  function Statements(x: Fact): seq<string> {
    [x.value, x.unit, x.item, x.assertion] + x.conditions + x.exceptions
  }

  lemma {:induction false} ConcatAround(parts: seq<string>, i: nat) returns (before: string, after: string)
    requires i < |parts|
    ensures Concat(parts) == before + parts[i] + after
  {
    if i == 0 {
      before, after := "", Concat(parts[1..]);
      assert "" + parts[0] + after == parts[0] + after;
    } else {
      var rest;
      rest, after := ConcatAround(parts[1..], i - 1);
      before := parts[0] + rest;
      assert parts[0] + (rest + parts[i] + after) == before + parts[i] + after;
    }
  }

  /** No correction can read across the ends of this squeezed text. */
  predicate Closed(p: string) {
    p != "" ==> p[0] != '랜' && p[|p| - 1] !in {'블', '랜', '쥬'}
  }

  lemma {:induction false} CorrectedWithin(b: string, p: string, a: string)
    requires Closed(p)
    ensures Corrected(b + p + a)[|b|..|b| + |p|] == Corrected(p)
  {
    var s := b + p + a;
    forall i | 0 <= i < |p|
      ensures Corrected(s)[|b| + i] == Corrected(p)[i]
    {
      assert s[|b| + i] == p[i];
      assert i > 0 ==> s[|b| + i - 1] == p[i - 1];
      assert i < |p| - 1 ==> s[|b| + i + 1] == p[i + 1];
    }
  }

  lemma {:induction false} ThreeParts(c: string, i: nat, j: nat)
    requires i <= j <= |c|
    ensures c == c[..i] + c[i..j] + c[j..]
  {
  }

  lemma {:induction false} NormalWithin(before: string, p: string, after: string) returns (b: string, a: string)
    requires Closed(Squeeze(p))
    ensures Normal(before + p + after) == b + Normal(p) + a
  {
    var (l, m, r) := (Squeeze(before), Squeeze(p), Squeeze(after));
    EraseThree(before, p, after, SPACES + {'/', '·'});
    NormalExactly(before + p + after);
    NormalExactly(p);
    b, a := ErasedWithin(l, m, r);
  }

  lemma {:induction false} ErasedWithin(l: string, m: string, r: string) returns (b: string, a: string)
    requires Closed(m)
    ensures Erase(Corrected(l + m + r), BRACKETS) == b + Erase(Corrected(m), BRACKETS) + a
  {
    var c := Corrected(l + m + r);
    CorrectedWithin(l, m, r);
    var (i, j) := (|l|, |l| + |m|);
    b, a := Erase(c[..i], BRACKETS), Erase(c[j..], BRACKETS);
    ThreeParts(c, i, j);
    EraseThree(c[..i], c[i..j], c[j..], BRACKETS);
  }

  /** Whatever is read in the normal form of a value, a unit, an item, an assertion, a condition or an exception is read in
      the text of the fact, unless a correction reads across the ends of that part. */
  lemma {:induction false} PartsRead(x: Fact, p: string, needle: string)
    requires p in {x.value, x.unit, x.item, x.assertion} || p in x.conditions || p in x.exceptions
    requires Closed(Squeeze(p)) && Contains(Normal(p), needle)
    ensures Contains(Blob(x), needle)
  {
    var parts := Statements(x);
    var i := PartFound(x, p);
    var before, after := ConcatAround(parts, i);
    var b, a := NormalWithin(before, p, after);
    assert Blob(x) == Normal(Concat(parts));
    ContainsPart(b, Normal(p), a, needle);
  }

  lemma {:induction false} PartFound(x: Fact, p: string) returns (i: nat)
    requires p in {x.value, x.unit, x.item, x.assertion} || p in x.conditions || p in x.exceptions
    ensures i < |Statements(x)| && Statements(x)[i] == p
  {
    var n := |x.conditions|;
    if j :| 0 <= j < |x.conditions| && x.conditions[j] == p {
      i := 4 + j;
    } else if j :| 0 <= j < |x.exceptions| && x.exceptions[j] == p {
      i := 4 + n + j;
    } else {
      i := if p == x.value then 0 else if p == x.unit then 1 else if p == x.item then 2 else 3;
    }
  }

  /** The text of a fact whose parts are closed is the normal forms of its parts, one after the other. */
  lemma {:induction false} TextExactly(x: Fact)
    requires forall i | 0 <= i < |Statements(x)| :: Closed(Squeeze(Statements(x)[i]))
    ensures Blob(x) == Concat(Normals(Statements(x)))
  {
    NormalsJoined(Statements(x));
  }

  function Normals(parts: seq<string>): seq<string> {
    seq(|parts|, i requires 0 <= i < |parts| => Normal(parts[i]))
  }

  lemma {:induction false} ClosedJoint(p: string, a: string)
    requires Closed(p)
    ensures Corrected(p + a) == Corrected(p) + Corrected(a)
  {
    var s, t := p + a, Corrected(p) + Corrected(a);
    forall i | 0 <= i < |s|
      ensures Corrected(s)[i] == t[i]
    {
    }
  }

  lemma {:induction false} NormalsJoined(parts: seq<string>)
    requires forall i | 0 <= i < |parts| :: Closed(Squeeze(parts[i]))
    ensures Normal(Concat(parts)) == Concat(Normals(parts))
  {
    if parts == [] {
      assert Normal("") == "";
    } else {
      var p, rest := parts[0], Concat(parts[1..]);
      NormalsJoined(parts[1..]);
      EraseConcat(p, rest, SPACES + {'/', '·'});
      ClosedJoint(Squeeze(p), Squeeze(rest));
      EraseConcat(Corrected(Squeeze(p)), Corrected(Squeeze(rest)), BRACKETS);
      NormalExactly(p + rest);
      NormalExactly(p);
      NormalExactly(rest);
      assert Normals(parts)[1..] == Normals(parts[1..]);
    }
  }
}
