/** Facts with little in them, and their keys. */
module PlainFacts {
  import opened Strings
  import opened FactKeys

  /** A fact with nothing but attribute, value and unit. */
  function Reported(attribute: string, value: string, unit: string): Fact {
    Fact("", "", attribute, value, unit, "", "", None, [], [], "")
  }

  lemma {:induction false} TooShort(hay: string, needle: string)
    requires |hay| < |needle|
    ensures !Contains(hay, needle)
  {
  }

  // Attributes

  lemma {:induction false} NotABlender(a: string)
    requires Squeeze(a) == a && '블' !in a
    ensures Column(a) == FirstPrefix(a, COLUMNS, "액상기타")
  {
    forall word | word in {"블렌더", "블랜더"}
      ensures !Contains(a, word)
    {
      assert word[0] == '블';
      if Contains(a, word) {
        ContainedChars(a, word, 0);
      }
    }
  }

  lemma {:induction false} CategoryColumn()
    ensures Squeeze("분류") == "분류" && Column("분류") == "분류"
  {
    EraseNothing("분류", SPACES + {'/', '·'});
    NotABlender("분류");
  }

  lemma {:induction false} CategoryKey(value: string)
    ensures KeyOf(Reported("분류", value, "")) == Some(Txt(EraseTemperature(Squeeze(value)), ""))
  {
    CategoryColumn();
  }

  lemma {:induction false} StepKey(value: string, unit: string)
    ensures KeyOf(Reported("제조순서", value, unit)) == Some(Step(None, Squeeze(value)))
  {
    EraseNothing("제조순서", SPACES + {'/', '·'});
    NotABlender("제조순서");
    assert Column("제조순서") == "제조순서";
  }

  lemma {:induction false} PriceColumn()
    ensures Squeeze("판매가") == "판매가" && Column("판매가") == "판매가"
  {
    EraseNothing("판매가", SPACES + {'/', '·'});
    NotABlender("판매가");
  }

  lemma {:induction false} PriceKey(unit: string)
    ensures KeyOf(Reported("판매가", "", unit)) == Some(Price(""))
  {
    PriceColumn();
    assert Squeeze("") == "" && NoCommas("") == "";
  }

  lemma {:induction false} PlainAttribute()
    ensures Squeeze("") == "" && Column("") == "액상기타" && Unit("") == ""
  {
    NotABlender("");
    assert Lower("") == "";
  }

  // Values

  lemma {:induction false} NoDigitsNoUnit(v: string, k: nat)
    requires v != "" && !DigitOrDot(v[0])
    ensures UnitSplit(v, k) == None
  {
    if k > 0 {
      NoDigitsNoUnit(v, k - 1);
    }
  }

  lemma {:induction false} PlainCell(v: string)
    requires v != "" && !DigitOrDot(v[0]) && v[0] != '~'
    ensures !IsFractional(v) && CellKey(v, "") == Some(Txt(v, ""))
  {
    NoDigitsNoUnit(v, |v|);
    assert Point(v) > 0 ==> v[..Point(v)][0] == v[0];
  }

  /** A value cell whose text begins with neither a digit, a point nor a tilde. */
  lemma {:induction false} CellReported(value: string, v: string)
    requires v == NoCommas(Squeeze(value)) && v != "" && !DigitOrDot(v[0]) && v[0] != '~'
    ensures KeyOf(Reported("", value, "")) == Some(Txt(v, ""))
  {
    PlainCell(v);
    PlainAttribute();
  }
}
