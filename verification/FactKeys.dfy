/** Normalised keys and texts of extracted facts: one key stands for "the same cell holds the same value". */
module FactKeys {
  import opened Strings

  /** A fact as an extraction run or the ledger reports it; a missing text field is the empty string. */
  datatype Fact = Fact(
    subject: string, variant: string, attribute: string, value: string, unit: string, item: string,
    polarity: string, stepOrder: Option<int>, conditions: seq<string>, exceptions: seq<string>, assertion: string)

  /** Where a fact sits in the reference: a numbered menu row, a named row such as the footnotes, or nowhere. */
  datatype Row = Menu(no: int) | Label(name: string) | NoRow

  datatype Key =
    | Neg(column: string)
    | Price(price: string)
    | Txt(text: string, txtUnit: string)
    | Step(order: Option<int>, step: string)
    | Num(number: string, numUnit: string)

  /** Deletes white space, slashes and middle dots. */
  function Squeeze(s: string): string {
    Erase(s, SPACES + {'/', '·'})
  }

  function Lower(s: string): (r: string)
    ensures |r| == |s|
  {
    seq(|s|, i requires 0 <= i < |s| => if 'A' <= s[i] <= 'Z' then (s[i] as int + 32) as char else s[i])
  }

  const UNIT_SPELLINGS: map<string, string> :=
    map["펌프" := "p", "레들" := "래들", "°c" := "℃", "g)" := "g", "shot" := "샷", "개" := "ea"]

  function Unit(u: string): string {
    var v := Lower(Squeeze(u));
    if v in UNIT_SPELLINGS then UNIT_SPELLINGS[v] else v
  }

  function NoCommas(s: string): string {
    Erase(s, {','})
  }

  /** Position of the first decimal point, or the length when there is none. */
  function Point(s: string): (p: nat)
    ensures p <= |s| && (forall i | 0 <= i < p :: s[i] != '.') && (p < |s| ==> s[p] == '.')
  {
    if s == [] || s[0] == '.' then 0 else 1 + Point(s[1..])
  }

  /** The pattern `\d+\.\d+`. */
  predicate IsFractional(s: string) {
    var p := Point(s);
    0 < p < |s| - 1 && AllDigits(s[..p]) && AllDigits(s[p + 1..])
  }

  /** Drops redundant fractional zeros, and the point when nothing is left behind it. */
  function TrimZeros(s: string): string {
    RStrip(RStrip(s, {'0'}), {'.'})
  }

  function Value(v: string): string {
    var w := NoCommas(Squeeze(v));
    if IsFractional(w) then TrimZeros(w) else w
  }

  const COLUMNS: seq<string> := ["판매가", "분류", "제조순서", "컵", "샷수", "얼음", "토핑", "재료"]

  function FirstPrefix(s: string, prefixes: seq<string>, otherwise: string): string {
    if prefixes == [] then otherwise
    else if prefixes[0] <= s then prefixes[0]
    else FirstPrefix(s, prefixes[1..], otherwise)
  }

  function Column(attribute: string): string {
    var a := Squeeze(attribute);
    if Contains(a, "블렌더") || Contains(a, "블랜더") then "블렌더"
    else FirstPrefix(a, COLUMNS, "액상기타")
  }

  /** Erases HOT and ICE, left to right. */
  function EraseTemperature(s: string): string {
    if |s| < 3 then s
    else if s[..3] == "HOT" || s[..3] == "ICE" then EraseTemperature(s[3..])
    else [s[0]] + EraseTemperature(s[1..])
  }

  predicate DigitOrDot(c: char) {
    IsDigit(c) || c == '.'
  }

  predicate UnitStartsAt(v: string, k: nat) {
    0 < k < |v| && (forall i | 0 <= i < k :: DigitOrDot(v[i])) && (forall i | k <= i < |v| :: !IsDigit(v[i]))
  }

  /** The greedy match of `([\d.]+)(\D+)` on the whole text: the largest split at or below `k`. */
  function UnitSplit(v: string, k: nat): (r: Option<nat>)
    ensures r.Some? ==> r.value <= k && UnitStartsAt(v, r.value) && forall j: nat | r.value < j <= k :: !UnitStartsAt(v, j)
    ensures r.None? ==> forall j: nat | j <= k :: !UnitStartsAt(v, j)
  {
    if UnitStartsAt(v, k) then Some(k) else if k == 0 then None else UnitSplit(v, k - 1)
  }

  predicate LooksNumeric(v: string) {
    v != [] && forall i | 0 <= i < |v| :: DigitOrDot(v[i]) || v[i] == '~'
  }

  /** The key of a value cell once value and unit are normalised. */
  function CellKey(v: string, u: string): Option<Key> {
    var split := if u == "" then UnitSplit(v, |v|) else None;
    var v' := if split.Some? then v[..split.value] else v;
    var u' := if split.Some? then Unit(v[split.value..]) else u;
    if LooksNumeric(v') then Some(Num(v', u'))
    else if v' != "" then Some(Txt(v', u'))
    else None
  }

  /** The voting key of a fact; auxiliary facts have none. */
  function KeyOf(x: Fact): Option<Key> {
    var a := Squeeze(x.attribute);
    var col := Column(a);
    if a == "메뉴번호" then None
    else if x.polarity == "NEGATE" then Some(Neg(col))
    else if col == "판매가" then Some(Price(Value(x.value)))
    else if col == "분류" then Some(Txt(EraseTemperature(Squeeze(x.value)), ""))
    else if col == "제조순서" then Some(Step(x.stepOrder, Squeeze(x.value)))
    else CellKey(Value(x.value), Unit(x.unit))
  }

  /** Comparison-only normalisation of text. */
  function Normal(s: string): string {
    Erase(Replace(Replace(Squeeze(s), "블랜더", "블렌더"), "쥬스", "주스"), {'[', ']', '(', ')', '（', '）'})
  }

  function Concat(parts: seq<string>): string {
    if parts == [] then "" else parts[0] + Concat(parts[1..])
  }

  /** All the text of a fact in which another run's reading may be found. */
  function Blob(x: Fact): string {
    Normal(Concat([x.value, x.unit, x.item, x.assertion] + x.conditions + x.exceptions))
  }

  /** The text that supports a key when another run's row contains it; empty for keys compared exactly. */
  function VoteNeedle(k: Key): string {
    match k
    case Num(v, u) => Normal(v + Replace(u, "회", "번"))
    case Step(_, text) => Normal(text)
    case Txt(v, _) => Normal(v)
    case Neg(_) => ""
    case Price(_) => ""
  }
}
