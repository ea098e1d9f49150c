/** Which numbers are found in a text: exactly the ones written there, each as a whole. */
module NumberTexts {
  import opened Strings
  import opened FactKeys
  import opened Numerals
  import opened ReferenceComparison
  import opened Spelling

  /** A number and the text in front of it. */
  datatype Word = Word(gap: string, number: string)

  /** A number as it is written: a decimal, with separators between any of its digits. */
  predicate WrittenNumber(s: string) {
    IsDecimal(NoCommas(s)) && forall i | 0 <= i < |s| && s[i] == ',' :: IsSeparator(s, i)
  }

  /** Text without digits that neither ends in a point nor, between two numbers, joins them into one. */
  predicate Gap(s: string, first: bool) {
    && NoDigit(s) && (s != "" ==> s[|s| - 1] != '.')
    && (!first ==> s != "" && (|s| == 1 ==> s[0] !in {'.', ','}))
  }

  predicate Worded(words: seq<Word>) {
    forall i | 0 <= i < |words| :: Gap(words[i].gap, i == 0) && WrittenNumber(words[i].number)
  }

  /** The text with these numbers in it. */
  function Text(words: seq<Word>, tail: string): string {
    if words == [] then tail else words[0].gap + words[0].number + Text(words[1..], tail)
  }

  /** What follows the number at `i` up to the next one. */
  function Following(words: seq<Word>, tail: string, i: nat): string
    requires i < |words|
  {
    if i + 1 < |words| then words[i + 1].gap else tail
  }

  /** The number at `i` is followed by this unit, and not immediately behind it by another number. */
  predicate HasUnit(words: seq<Word>, tail: string, i: nat, unit: string)
    requires i < |words|
  {
    unit <= Following(words, tail, i) && (i + 1 < |words| ==> |unit| < |words[i + 1].gap|)
  }

  /** A unit that cannot be part of a number. */
  predicate UnitText(u: string) {
    NoDigit(u) && (u != "" ==> u[0] != '.')
  }

  // Finding a number in a text without separators

  predicate Found(needle: string, plain: string) {
    exists i: nat | i <= |plain| :: NumberAt(plain, needle, i)
  }

  /** Neither a digit nor a fraction stands at position `e`. */
  predicate Over(s: string, e: nat) {
    (e < |s| ==> !IsDigit(s[e])) && (e + 1 < |s| ==> !(s[e] == '.' && IsDigit(s[e + 1])))
  }

  /** What may follow a number: the unit, and then neither a digit nor a fraction. */
  predicate Behind(rest: string, u: string) {
    u <= rest && Over(rest, |u|)
  }

  /** Text behind a number that does not go on with it. */
  predicate Apart(rest: string) {
    Behind(rest, "")
  }

  lemma {:induction false} DecimalEnds(n: string)
    requires IsDecimal(n)
    ensures n != "" && IsDigit(n[0]) && IsDigit(n[|n| - 1]) && forall i | 0 <= i < |n| :: DigitOrDot(n[i])
    ensures forall i | 0 <= i < |n| && n[i] == '.' :: i + 1 < |n| && IsDigit(n[i + 1])
  {
    if IsFractional(n) {
      var p := Point(n);
      assert n[..p][0] == n[0] && n[p + 1..][|n| - p - 2] == n[|n| - 1];
      forall i | 0 <= i < |n|
        ensures i < p ==> IsDigit(n[i])
        ensures i > p ==> IsDigit(n[i])
      {
        assert i < p ==> n[..p][i] == n[i];
        assert i > p ==> n[p + 1..][i - p - 1] == n[i];
      }
    }
  }

  lemma {:induction false} CharOf(hay: string, needle: string, i: nat, k: nat)
    requires At(hay, needle, i) && k < |needle|
    ensures i + k < |hay| && hay[i + k] == needle[k]
  {
    MatchedChar(hay, needle, i, k);
  }

  /** A number begins only where a number begins. */
  lemma {:induction false} BeginsThere(gap: string, n: string, rest: string, w: string, u: string, i: nat)
    requires IsDecimal(n) && IsDecimal(w) && NoDigit(gap) && Apart(rest)
    requires NumberAt(gap + n + rest, w + u, i)
    ensures i == |gap| || i > |gap| + |n|
  {
    DecimalEnds(n);
    DecimalEnds(w);
    var plain := gap + n + rest;
    CharOf(plain, w + u, i, 0);
    assert (w + u)[0] == w[0] && IsDigit(plain[i]);
    assert forall k | 0 <= k < |gap| :: plain[k] == gap[k];
    assert forall k | 0 <= k < |n| :: plain[|gap| + k] == n[k];
  }

  lemma {:induction false} PrefixChars(a: string, b: string, c: string, d: string)
    requires a + b <= c + d
    ensures forall k | 0 <= k < |a| :: a[k] == (c + d)[k]
    ensures forall k | 0 <= k < |b| :: b[k] == (c + d)[|a| + k]
    ensures (forall k | 0 <= k < |c| :: (c + d)[k] == c[k]) && forall k | 0 <= k < |d| :: (c + d)[|c| + k] == d[k]
  {
    assert forall k | 0 <= k < |a| :: (a + b)[k] == a[k];
    assert forall k | 0 <= k < |b| :: (a + b)[|a| + k] == b[k];
    assert forall k | 0 <= k < |a + b| :: (a + b)[k] == (c + d)[k];
  }

  lemma {:induction false} CharsOfWhole(n: string, rest: string, w: string, u: string)
    requires IsDecimal(n) && IsDecimal(w) && UnitText(u) && w + u <= n + rest && |w| < |n|
    ensures u == "" && (IsDigit(n[|w|]) || (n[|w|] == '.' && |w| + 1 < |n| && IsDigit(n[|w| + 1])))
  {
    DecimalEnds(n);
    PrefixChars(w, u, n, rest);
    assert (n + rest)[|w| + 0] == n[|w|];
  }

  lemma {:induction false} NotLonger(n: string, rest: string, w: string, u: string)
    requires IsDecimal(n) && IsDecimal(w) && Apart(rest) && w + u <= n + rest
    ensures |w| <= |n|
  {
    DecimalEnds(w);
    PrefixChars(w, u, n, rest);
    assert forall k | 0 <= k < |rest| :: (n + rest)[|n| + k] == rest[k];
  }

  lemma {:induction false} AtFront(gap: string, x: string, needle: string)
    requires gap != "" ==> !DigitOrDot(gap[|gap| - 1])
    ensures NumberAt(gap + x, needle, |gap|) <==> needle <= x && Over(x, |needle|)
  {
    var plain := gap + x;
    assert plain[|gap|..] == x;
    if |needle| <= |x| {
      assert plain[|gap|..|gap| + |needle|] == x[..|needle|];
    }
    assert forall k | 0 <= k < |x| :: plain[|gap| + k] == x[k];
  }

  lemma {:induction false} OverBehind(n: string, rest: string, e: nat)
    requires e <= |rest|
    ensures Over(n + rest, |n| + e) <==> Over(rest, e)
  {
    assert forall k | 0 <= k < |rest| :: (n + rest)[|n| + k] == rest[k];
  }

  lemma {:induction false} NotShorter(n: string, rest: string, w: string, u: string)
    requires IsDecimal(n) && IsDecimal(w) && UnitText(u) && Apart(rest) && w + u <= n + rest && Over(n + rest, |w + u|)
    ensures |w| >= |n|
  {
    if |w| < |n| {
      CharsOfWhole(n, rest, w, u);
    }
  }

  lemma {:induction false} PrefixSplit(n: string, rest: string, w: string, u: string)
    requires |w| == |n|
    ensures w + u <= n + rest <==> w == n && u <= rest
  {
    if w + u <= n + rest {
      assert (n + rest)[..|w + u|][..|n|] == n && (w + u)[..|w|] == w;
      assert (w + u)[|w|..] == u && (n + rest)[..|w + u|][|n|..] == rest[..|u|];
    }
    if w == n && u <= rest {
      assert (n + rest)[..|w + u|] == n + rest[..|u|];
    }
  }

  /** At the beginning of a number exactly that number is found, with what may follow it. */
  lemma {:induction false} WholeThere(gap: string, n: string, rest: string, w: string, u: string)
    requires IsDecimal(n) && IsDecimal(w) && UnitText(u) && Apart(rest)
    requires gap != "" ==> !DigitOrDot(gap[|gap| - 1])
    ensures NumberAt(gap + n + rest, w + u, |gap|) <==> w == n && Behind(rest, u)
  {
    Regrouped(gap, n, rest);
    AtFront(gap, n + rest, w + u);
    if w + u <= n + rest && Over(n + rest, |w + u|) {
      NotLonger(n, rest, w, u);
      NotShorter(n, rest, w, u);
    }
    if |w| == |n| {
      PrefixSplit(n, rest, w, u);
    }
    if |u| <= |rest| {
      OverBehind(n, rest, |u|);
    }
  }

  /** Behind the number the search goes on in what follows. */
  lemma {:induction false} FoundBehind(front: string, rest: string, needle: string, i: nat)
    requires needle != "" && IsDigit(needle[0]) && 0 < i <= |rest|
    ensures NumberAt(front + rest, needle, |front| + i) <==> NumberAt(rest, needle, i)
  {
    var plain := front + rest;
    assert forall k | 0 <= k < |rest| :: plain[|front| + k] == rest[k];
    if i + |needle| <= |rest| {
      assert plain[|front| + i..|front| + i + |needle|] == rest[i..i + |needle|];
    }
  }

  lemma {:induction false} NotAtGap(rest: string, needle: string)
    requires needle != "" && IsDigit(needle[0]) && Apart(rest)
    ensures !NumberAt(rest, needle, 0)
  {
  }

  lemma {:induction false} FoundFurther(front: string, rest: string, needle: string)
    requires needle != "" && IsDigit(needle[0]) && Apart(rest) && Found(needle, rest)
    ensures Found(needle, front + rest)
  {
    NotAtGap(rest, needle);
    var i: nat :| i <= |rest| && NumberAt(rest, needle, i);
    FoundBehind(front, rest, needle, i);
    assert NumberAt(front + rest, needle, |front| + i);
  }

  lemma {:induction false} FoundStep(gap: string, n: string, rest: string, w: string, u: string)
    requires IsDecimal(n) && IsDecimal(w) && UnitText(u) && Apart(rest)
    requires NoDigit(gap) && (gap != "" ==> gap[|gap| - 1] != '.')
    ensures Found(w + u, gap + n + rest) <==> (w == n && Behind(rest, u)) || Found(w + u, rest)
  {
    var plain, needle := gap + n + rest, w + u;
    DecimalEnds(w);
    assert needle[0] == w[0];
    WholeThere(gap, n, rest, w, u);
    if i: nat :| i <= |plain| && NumberAt(plain, needle, i) {
      BeginsThere(gap, n, rest, w, u, i);
      if i > |gap| + |n| {
        FoundBehind(gap + n, rest, needle, i - |gap + n|);
      }
    }
    if Found(needle, rest) {
      FoundFurther(gap + n, rest, needle);
    }
  }

  lemma {:induction false} FoundNowhere(tail: string, w: string, u: string)
    requires IsDecimal(w) && NoDigit(tail)
    ensures !Found(w + u, tail)
  {
    DecimalEnds(w);
    forall i: nat | i <= |tail|
      ensures !NumberAt(tail, w + u, i)
    {
      assert (w + u)[0] == w[0];
    }
  }

  // Dropping the separators

  predicate SameSeparators(x: string, y: string) {
    && (forall k: nat | k < |x| :: IsSeparator(x + y, k) == IsSeparator(x, k))
    && (forall k: nat | k < |y| :: IsSeparator(x + y, |x| + k) == IsSeparator(y, k))
  }

  lemma {:induction false} DropNext(s: string, i: nat)
    requires i < |s|
    ensures DropThousands(s, i) == if IsSeparator(s, i) then DropThousands(s, i + 1) else [s[i]] + DropThousands(s, i + 1)
  {
  }

  lemma {:induction false} DropBehind(x: string, y: string, k: nat)
    requires k <= |y| && SameSeparators(x, y)
    ensures DropThousands(x + y, |x| + k) == DropThousands(y, k)
    decreases |y| - k
  {
    if k < |y| {
      DropBehind(x, y, k + 1);
      var all, i := x + y, |x| + k;
      assert all[i] == y[k] && IsSeparator(all, i) == IsSeparator(y, k);
      DropNext(all, i);
      DropNext(y, k);
    } else {
      assert |x + y| == |x| + k;
    }
  }

  lemma {:induction false} DropJoined(x: string, y: string, k: nat)
    requires k <= |x| && SameSeparators(x, y)
    ensures DropThousands(x + y, k) == DropThousands(x, k) + DropThousands(y, 0)
    decreases |x| - k
  {
    if k == |x| {
      DropBehind(x, y, 0);
      assert DropThousands(x, k) + DropThousands(y, 0) == DropThousands(y, 0);
    } else {
      DropJoined(x, y, k + 1);
      assert (x + y)[k] == x[k];
      Regrouped([x[k]], DropThousands(x, k + 1), DropThousands(y, 0));
    }
  }

  lemma {:induction false} DropNone(x: string, k: nat)
    requires k <= |x| && NoDigit(x)
    ensures DropThousands(x, k) == x[k..]
    decreases |x| - k
  {
    if k < |x| {
      DropNone(x, k + 1);
      assert x[k..] == [x[k]] + x[k + 1..];
    }
  }

  lemma {:induction false} DropAll(x: string, k: nat)
    requires k <= |x| && forall i | 0 <= i < |x| && x[i] == ',' :: IsSeparator(x, i)
    ensures DropThousands(x, k) == NoCommas(x[k..])
    decreases |x| - k
  {
    if k < |x| {
      DropAll(x, k + 1);
      assert x[k..][0] == x[k] && x[k..][1..] == x[k + 1..];
    }
  }

  // The text and its numbers

  /** What follows a number goes on with a gap. */
  predicate GoesOn(rest: string) {
    Apart(rest) && (rest != "" && rest[0] == ',' ==> |rest| == 1 || !IsDigit(rest[1]))
  }

  lemma {:induction false} WordSeparators(gap: string, n: string, rest: string)
    requires NoDigit(gap) && WrittenNumber(n) && GoesOn(rest)
    ensures SameSeparators(gap, n + rest) && SameSeparators(n, rest)
  {
    WrittenEnds(n);
  }

  lemma {:induction false} WrittenEnds(n: string)
    requires WrittenNumber(n)
    ensures n != "" && IsDigit(n[0]) && IsDigit(n[|n| - 1])
  {
    DecimalEnds(NoCommas(n));
    if n[|n| - 1] != ',' {
      EraseLast(n, {','});
    }
  }

  lemma {:induction false} DropWord(gap: string, n: string, rest: string)
    requires NoDigit(gap) && WrittenNumber(n) && GoesOn(rest)
    ensures DropThousands(gap + n + rest, 0) == gap + NoCommas(n) + DropThousands(rest, 0)
  {
    WordSeparators(gap, n, rest);
    Regrouped(gap, n, rest);
    DropJoined(gap, n + rest, 0);
    DropJoined(n, rest, 0);
    DropNone(gap, 0);
    DropAll(n, 0);
    assert gap[0..] == gap && n[0..] == n;
    Regrouped(gap, NoCommas(n), DropThousands(rest, 0));
  }

  lemma {:induction false} GapApart(gap: string, behind: string)
    requires Gap(gap, false)
    ensures GoesOn(gap + behind)
  {
    var rest := gap + behind;
    assert rest[0] == gap[0] && (|gap| > 1 ==> rest[1] == gap[1]);
  }

  lemma {:induction false} TextGoesOn(words: seq<Word>, tail: string)
    requires Worded(words) && (words != [] ==> Gap(words[0].gap, false)) && NoDigit(tail)
    ensures GoesOn(Text(words, tail))
  {
    if words != [] {
      var behind := words[0].number + Text(words[1..], tail);
      Regrouped(words[0].gap, words[0].number, Text(words[1..], tail));
      GapApart(words[0].gap, behind);
    }
  }

  lemma {:induction false} WordedRest(words: seq<Word>)
    requires Worded(words) && words != []
    ensures Worded(words[1..]) && (words[1..] != [] ==> Gap(words[1..][0].gap, false))
  {
    forall i | 0 <= i < |words[1..]|
      ensures Gap(words[1..][i].gap, false) && WrittenNumber(words[1..][i].number)
    {
      assert words[1..][i] == words[i + 1] && Gap(words[i + 1].gap, i + 1 == 0);
    }
  }

  /** The text without the separators in its numbers. */
  function PlainText(words: seq<Word>, tail: string): string {
    DropThousands(Text(words, tail), 0)
  }

  lemma {:induction false} PlainNext(words: seq<Word>, tail: string)
    requires Worded(words) && words != [] && NoDigit(tail)
    ensures PlainText(words, tail) == words[0].gap + NoCommas(words[0].number) + PlainText(words[1..], tail)
  {
    WordedRest(words);
    TextGoesOn(words[1..], tail);
    DropWord(words[0].gap, words[0].number, Text(words[1..], tail));
  }

  lemma {:induction false} PlainTail(tail: string)
    requires NoDigit(tail)
    ensures PlainText([], tail) == tail
  {
    DropNone(tail, 0);
    assert tail[0..] == tail;
  }

  /** Behind a gap with a number behind it only the inside of the gap can be a unit. */
  lemma {:induction false} UnitInGap(gap: string, behind: string, u: string)
    requires Gap(gap, false) && behind != "" && IsDigit(behind[0]) && UnitText(u)
    ensures Behind(gap + behind, u) <==> u <= gap && |u| < |gap|
  {
    var rest := gap + behind;
    assert forall k | 0 <= k < |gap| :: rest[k] == gap[k];
    assert rest[|gap|] == behind[0];
    if u <= rest {
      assert forall k | 0 <= k < |u| :: u[k] == rest[k];
      if |u| <= |gap| {
        assert rest[..|u|] == gap[..|u|];
      }
    }
    if u <= gap {
      assert rest[..|u|] == gap[..|u|];
    }
  }

  lemma {:induction false} PlainApart(words: seq<Word>, tail: string, u: string)
    requires Worded(words) && (words != [] ==> Gap(words[0].gap, false)) && NoDigit(tail) && UnitText(u)
    ensures Apart(PlainText(words, tail))
    ensures Behind(PlainText(words, tail), u) <==>
            if words == [] then u <= tail else u <= words[0].gap && |u| < |words[0].gap|
  {
    if words == [] {
      PlainTail(tail);
    } else {
      PlainNext(words, tail);
      var n, rest := NoCommas(words[0].number), PlainText(words[1..], tail);
      DecimalEnds(n);
      Regrouped(words[0].gap, n, rest);
      GapApart(words[0].gap, n + rest);
      UnitInGap(words[0].gap, n + rest, u);
    }
  }

  /** The number at `i` is this one, with this unit behind it. */
  predicate Stands(words: seq<Word>, tail: string, i: nat, w: string, u: string) {
    i < |words| && NoCommas(words[i].number) == w && HasUnit(words, tail, i, u)
  }

  lemma {:induction false} StandsLater(words: seq<Word>, tail: string, w: string, u: string)
    requires words != []
    ensures (exists i: nat :: Stands(words, tail, i, w, u)) <==>
            Stands(words, tail, 0, w, u) || exists i: nat :: Stands(words[1..], tail, i, w, u)
  {
    var rest := words[1..];
    forall i: nat | i < |rest|
      ensures Stands(rest, tail, i, w, u) <==> Stands(words, tail, i + 1, w, u)
    {
      assert rest[i] == words[i + 1];
    }
    if i: nat :| Stands(words, tail, i, w, u) && i > 0 {
      assert Stands(rest, tail, i - 1, w, u);
    }
    if i: nat :| Stands(rest, tail, i, w, u) {
      assert Stands(words, tail, i + 1, w, u);
    }
  }

  lemma {:induction false} FoundFirst(words: seq<Word>, tail: string, w: string, u: string)
    requires Worded(words) && words != [] && NoDigit(tail) && IsDecimal(w) && UnitText(u)
    ensures NumIn(w + u, Text(words, tail)) <==> Stands(words, tail, 0, w, u) || NumIn(w + u, Text(words[1..], tail))
  {
    WordedRest(words);
    PlainNext(words, tail);
    PlainApart(words[1..], tail, u);
    FoundStep(words[0].gap, NoCommas(words[0].number), PlainText(words[1..], tail), w, u);
    assert |words| > 1 ==> words[1..][0] == words[1];
  }

  /** A number with its unit is found in a text if and only if it is one of the numbers written there, whole, its
      separators dropped, and the unit follows it, not immediately behind the unit another number. */
  lemma {:induction false} FoundExactly(words: seq<Word>, tail: string, w: string, u: string)
    requires Worded(words) && NoDigit(tail) && IsDecimal(w) && UnitText(u)
    ensures NumIn(w + u, Text(words, tail)) <==> exists i: nat :: Stands(words, tail, i, w, u)
    decreases |words|
  {
    if words == [] {
      PlainTail(tail);
      FoundNowhere(tail, w, u);
    } else {
      WordedRest(words);
      FoundExactly(words[1..], tail, w, u);
      FoundFirst(words, tail, w, u);
      StandsLater(words, tail, w, u);
    }
  }

  // What a ledger fact recalls

  lemma {:induction false} NumberSqueezed(w: string)
    requires forall i | 0 <= i < |w| :: DigitOrDot(w[i])
    ensures Squeeze(w) == w
  {
    EraseNothing(w, SPACES + {'/', '·'});
  }

  lemma {:induction false} NumberUnbracketed(w: string)
    requires forall i | 0 <= i < |w| :: DigitOrDot(w[i])
    ensures Erase(w, BRACKETS) == w && forall i | 0 <= i < |w| :: Untouched(w[i])
  {
    EraseNothing(w, BRACKETS);
  }

  /** Normalising leaves a number in front of a text as it is. */
  lemma {:induction false} NumberNormal(w: string, v: string)
    requires IsDecimal(w)
    ensures Normal(w + v) == w + Normal(v)
  {
    DecimalEnds(w);
    NumberSqueezed(w);
    NumberUnbracketed(w);
    EraseConcat(w, v, SPACES + {'/', '·'});
    NormalExactly(w + v);
    NormalExactly(v);
    var a := Squeeze(v);
    assert w + a + "" == w + a;
    PlainAround(w, a, "");
    var e := Erase(Corrected(a), BRACKETS);
    assert w + e + "" == w + e;
  }

  lemma {:induction false} PriceSought(x: Fact, w: string)
    requires IsDecimal(w) && KeyOf(x) != Some(Price(w))
    ensures Recalls(Price(w), x) <==> NumIn(w + "", Blob(x))
  {
    NumberNormal(w, "");
    assert Normal("") == "" && w + "" == w;
    DecimalEnds(w);
  }

  lemma {:induction false} StandsPlain(words: seq<Word>, tail: string, w: string)
    requires Worded(words)
    ensures (exists i: nat :: Stands(words, tail, i, w, "")) <==> exists i | 0 <= i < |words| :: NoCommas(words[i].number) == w
  {
    forall i: nat | i < |words|
      ensures Stands(words, tail, i, w, "") <==> NoCommas(words[i].number) == w
    {
      assert i + 1 < |words| ==> Gap(words[i + 1].gap, false);
    }
  }

  /** A fact with another key recalls a price if and only if the price is one of the numbers in its text. */
  lemma {:induction false} PriceRecalledExactly(x: Fact, words: seq<Word>, tail: string, w: string)
    requires Worded(words) && NoDigit(tail) && Blob(x) == Text(words, tail)
    requires IsDecimal(w) && KeyOf(x) != Some(Price(w))
    ensures Recalls(Price(w), x) <==> exists i | 0 <= i < |words| :: NoCommas(words[i].number) == w
  {
    PriceSought(x, w);
    FoundExactly(words, tail, w, "");
    StandsPlain(words, tail, w);
  }

  lemma {:induction false} NumberSought(x: Fact, w: string, unit: string)
    requires IsDecimal(w) && KeyOf(x) != Some(Num(w, unit))
    ensures Recalls(Num(w, unit), x) <==> NumIn(w + Normal(Replace(unit, "회", "번")), Blob(x))
  {
    NumberNormal(w, Replace(unit, "회", "번"));
    DecimalEnds(w);
  }

  /** A fact with another key recalls a number with its unit if and only if it is one of the numbers in its text, with the
      unit behind it. */
  lemma {:induction false} NumberRecalledExactly(x: Fact, words: seq<Word>, tail: string, w: string, unit: string, u: string)
    requires Worded(words) && NoDigit(tail) && Blob(x) == Text(words, tail)
    requires IsDecimal(w) && KeyOf(x) != Some(Num(w, unit)) && u == Normal(Replace(unit, "회", "번")) && UnitText(u)
    ensures Recalls(Num(w, unit), x) <==> exists i: nat :: Stands(words, tail, i, w, u)
  {
    NumberSought(x, w, unit);
    FoundExactly(words, tail, w, u);
  }

  /** In a number exactly that number is found. */
  lemma {:induction false} FoundInNumber(n: string, w: string)
    requires WrittenNumber(n) && IsDecimal(w)
    ensures NumIn(w, n) <==> w == NoCommas(n)
  {
    var words := [Word("", n)];
    assert words[1..] == [] && Text(words[1..], "") == "";
    assert "" + n + "" == n;
    assert w + "" == w;
    FoundExactly(words, "", w, "");
    assert Stands(words, "", 0, w, "") <==> NoCommas(n) == w;
  }

  lemma {:induction false} DigitsAlone(n: string)
    requires AllDigits(n) && n != ""
    ensures WrittenNumber(n) && NoCommas(n) == n && IsDecimal(n)
  {
    EraseNothing(n, {','});
  }

  /** A longer number never shows a shorter one, on either side. */
  lemma {:induction false} NotInLonger(before: string, w: string, after: string)
    requires AllDigits(before) && AllDigits(w) && w != "" && AllDigits(after)
    ensures NumIn(w, before + w + after) <==> before == "" && after == ""
  {
    var n := before + w + after;
    assert forall i | 0 <= i < |n| :: IsDigit(n[i]);
    DigitsAlone(n);
    DigitsAlone(w);
    FoundInNumber(n, w);
    assert |n| == |before| + |w| + |after|;
  }
}
