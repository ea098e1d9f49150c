/** A number is found in a text however its thousands are grouped. */
module NumberSearch {
  import opened Strings
  import opened FactKeys
  import opened ReferenceComparison

  /** Digits with commas between some of them. */
  predicate IsGrouped(s: string) {
    && s != [] && IsDigit(s[0]) && IsDigit(s[|s| - 1])
    && (forall i | 0 <= i < |s| :: IsDigit(s[i]) || s[i] == ',')
    && (forall i | 0 <= i < |s| - 1 :: s[i] == ',' ==> IsDigit(s[i + 1]))
  }

  function Digits(s: string): string {
    Erase(s, {','})
  }

  /** The text stands at `a`, up to `b`, in a longer one that neither continues its digits nor its grouping. */
  predicate StandsAlone(text: string, a: nat, b: nat) {
    && a < b <= |text| && IsGrouped(text[a..b])
    && (a > 0 ==> !DigitOrDot(text[a - 1]) && text[a - 1] != ',')
    && (b < |text| ==> !DigitOrDot(text[b]) && text[b] != ',')
  }

  /** What precedes position `a` comes through in front of what follows it. */
  lemma {:induction false} DropFront(text: string, i: nat, a: nat) returns (p: string)
    requires i <= a <= |text|
    ensures DropThousands(text, i) == p + DropThousands(text, a)
    ensures a > i && text[a - 1] != ',' ==> p != [] && p[|p| - 1] == text[a - 1]
    ensures i == a ==> p == []
    decreases a - i
  {
    if i == a {
      p := [];
      assert [] + DropThousands(text, a) == DropThousands(text, a);
    } else {
      p := DropFront(text, i + 1, a);
      if !IsSeparator(text, i) {
        KeepOne(p, DropThousands(text, a), text[i]);
        LastKept(p, text[i]);
        p := [text[i]] + p;
      }
    }
  }

  lemma {:induction false} LastKept(p: string, c: char)
    ensures ([c] + p)[|p|] == if p == [] then c else p[|p| - 1]
  {
  }

  /** Where every comma is a separator only the commas go. */
  lemma {:induction false} DropGrouped(text: string, i: nat, b: nat)
    requires i <= b <= |text| && forall k | i <= k < b && text[k] == ',' :: IsSeparator(text, k)
    ensures DropThousands(text, i) == Digits(text[i..b]) + DropThousands(text, b)
    decreases b - i
  {
    if i < b {
      DropGrouped(text, i + 1, b);
      DigitsNext(text, i, b);
      KeepOne(Digits(text[i + 1..b]), DropThousands(text, b), text[i]);
    } else {
      assert text[i..b] == [];
    }
  }

  lemma {:induction false} DigitsNext(text: string, i: nat, b: nat)
    requires i < b <= |text|
    ensures Digits(text[i..b]) == if text[i] == ',' then Digits(text[i + 1..b]) else [text[i]] + Digits(text[i + 1..b])
  {
  }

  lemma {:induction false} KeepOne(a: string, b: string, c: char)
    ensures [c] + (a + b) == [c] + a + b
  {
  }

  lemma {:induction false} CommaInside(text: string, a: nat, b: nat, i: nat)
    requires StandsAlone(text, a, b) && a <= i < b && text[i] == ','
    ensures IsSeparator(text, i)
  {
  }

  /** A number that stands alone in a text is found there by its digits, however it is grouped. */
  lemma {:induction false} GroupedFound(text: string, a: nat, b: nat)
    requires StandsAlone(text, a, b)
    ensures NumIn(Digits(text[a..b]), text)
  {
    var w := Digits(text[a..b]);
    var p := DropFront(text, 0, a);
    forall k | a <= k < b && text[k] == ','
      ensures IsSeparator(text, k)
    {
      CommaInside(text, a, b, k);
    }
    DropGrouped(text, a, b);
    var rest := DropThousands(text, b);
    assert rest != [] ==> b < |text|;
    assert rest != [] ==> rest[0] == text[b];
    Framed(p, w, rest);
    NumberFramed(p, w, rest);
    assert DropThousands(text, 0) == p + w + rest;
  }

  lemma {:induction false} Framed(p: string, w: string, rest: string)
    ensures p + (w + rest) == p + w + rest
  {
  }

  /** A text stands as a number between pieces that neither end nor begin with a digit or a point. */
  lemma {:induction false} NumberFramed(p: string, w: string, rest: string)
    requires p != [] ==> !DigitOrDot(p[|p| - 1])
    requires rest != [] ==> !DigitOrDot(rest[0])
    ensures NumberAt(p + w + rest, w, |p|)
  {
    var plain := p + w + rest;
    assert plain[|p|..|p| + |w|] == w;
    assert rest != [] ==> plain[|p| + |w|] == rest[0];
  }

  lemma {:induction false} DigitsNormal(w: string)
    requires AllDigits(w)
    ensures Normal(w) == w
  {
    EraseNothing(w, SPACES + {'/', '·'});
    ReplaceAbsent(w, "블랜더", "블렌더");
    ReplaceAbsent(w, "쥬스", "주스");
    EraseNothing(w, {'[', ']', '(', ')', '（', '）'});
  }

  lemma {:induction false} GroupedDigits(s: string)
    requires IsGrouped(s)
    ensures AllDigits(Digits(s)) && Digits(s) != []
  {
    EraseMembers(s, {','});
    var w := Digits(s);
    forall i | 0 <= i < |w|
      ensures IsDigit(w[i])
    {
      assert w[i] in w;
      var j :| 0 <= j < |s| && s[j] == w[i];
    }
    assert s[0] in w;
  }

  /** A ledger fact of the row whose text shows the price recalls it, however the price is grouped there. */
  lemma {:induction false} GroupedPriceRecalled(x: Fact, a: nat, b: nat)
    requires StandsAlone(Blob(x), a, b)
    ensures Recalls(Price(Digits(Blob(x)[a..b])), x)
  {
    GroupedDigits(Blob(x)[a..b]);
    DigitsNormal(Digits(Blob(x)[a..b]));
    GroupedFound(Blob(x), a, b);
  }
}
