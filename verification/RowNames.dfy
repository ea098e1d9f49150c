/** Names and variants by which facts find their rows, written out by letter and place. */
module RowNames {
  import opened Strings
  import opened FactKeys
  import opened KeyForms
  import opened RowLinks

  // HOT and ICE

  /** HOT or ICE in capitals, small letters or a mixture, with any kind of i. */
  predicate Spells(s: string) {
    && |s| == 3
    && ((s[0] in {'H', 'h'} && s[1] in {'O', 'o'} && s[2] in {'T', 't'})
        || (s[0] in {'I', 'i', 'İ', 'ı'} && s[1] in {'C', 'c'} && s[2] in {'E', 'e'}))
  }

  lemma {:induction false} TemperatureExactly(s: string)
    ensures IsTemperature(s) <==> Spells(s)
  {
  }

  predicate SpelledAt(s: string, i: int) {
    0 <= i && i + 3 <= |s| && Spells(s[i..i + 3])
  }

  /** The first HOT or ICE of the text stands at `i`. */
  predicate FirstSpelled(s: string, i: int) {
    SpelledAt(s, i) && forall j | 0 <= j < i :: !SpelledAt(s, j)
  }

  ghost predicate NoneSpelled(s: string) {
    forall j :: !SpelledAt(s, j)
  }

  lemma {:induction false} SpelledLater(s: string, i: int)
    requires s != "" && i >= 1
    ensures SpelledAt(s, i) <==> SpelledAt(s[1..], i - 1)
  {
    if i + 3 <= |s| {
      assert s[1..][i - 1..i - 1 + 3] == s[i..i + 3];
    }
  }

  lemma {:induction false} AfterFirst(s: string, i: nat, end: string)
    requires 1 <= i && i + 3 <= |s|
    ensures s[1..][i - 1 + 3..] == s[i + 3..] && s[1..][i - 1..i - 1 + 3] == s[i..i + 3]
    ensures [s[0]] + (s[1..][..i - 1] + end) == s[..i] + end
  {
    assert [s[0]] + s[1..][..i - 1] == s[..i];
    assert [s[0]] + (s[1..][..i - 1] + end) == ([s[0]] + s[1..][..i - 1]) + end;
  }

  /** Without HOT and ICE a text lacks the first of them, and then the rest lacks them too. */
  lemma {:induction false} WithoutFirst(s: string, i: nat)
    requires FirstSpelled(s, i)
    ensures WithoutTemperature(s) == s[..i] + WithoutTemperature(s[i + 3..])
    ensures FirstTemperature(s) == s[i..i + 3]
  {
    TemperatureExactly(s[..3]);
    if i == 0 {
      assert s[0..3] == s[..3];
    } else {
      assert !SpelledAt(s, 0) && s[0..3] == s[..3];
      var rest := s[1..];
      SpelledLater(s, i);
      forall j | 0 <= j < i - 1
        ensures !SpelledAt(rest, j)
      {
        SpelledLater(s, j + 1);
      }
      WithoutFirst(rest, i - 1);
      AfterFirst(s, i, WithoutTemperature(s[i + 3..]));
    }
  }

  /** A text in which neither is spelled stays as it is. */
  lemma {:induction false} WithoutNone(s: string)
    requires NoneSpelled(s)
    ensures WithoutTemperature(s) == s && FirstTemperature(s) == ""
  {
    if |s| >= 3 {
      assert !SpelledAt(s, 0) && s[0..3] == s[..3];
      TemperatureExactly(s[..3]);
      forall j
        ensures !SpelledAt(s[1..], j)
      {
        if j >= 0 {
          SpelledLater(s, j + 1);
        }
      }
      WithoutNone(s[1..]);
      assert s == [s[0]] + s[1..];
    }
  }

  lemma {:induction false} SpelledSomewhere(s: string) returns (i: int)
    ensures if NoneSpelled(s) then i == -1 else FirstSpelled(s, i)
  {
    i := -1;
    if !NoneSpelled(s) {
      i := 0;
      while !SpelledAt(s, i)
        invariant 0 <= i <= |s| && forall j | 0 <= j < i :: !SpelledAt(s, j)
        decreases |s| - i
      {
        i := i + 1;
      }
    }
  }

  // Capitals

  /** A small letter becomes the capital of its place in the alphabet, a dotless i an I, and nothing else changes. */
  lemma {:induction false} UpperExactly(s: string, i: nat, c: char)
    requires i < |s|
    ensures Upper(s)[i] == c <==>
            if s[i] == 'ı' then c == 'I'
            else if exists k, d :: Paired(k, d, s[i]) then exists k :: Paired(k, c, s[i])
            else c == s[i]
  {
    if 'a' <= s[i] <= 'z' {
      Alphabet((s[i] as int - 32) as char);
    }
    forall k, d | Paired(k, d, s[i])
      ensures 'a' <= s[i] <= 'z' && d as int == s[i] as int - 32
    {
      NoOther(k, d, s[i]);
      Alphabet(d);
    }
  }

  /** In capitals all ways of spelling are one, but for a dotted I. */
  lemma {:induction false} UpperTemperature(s: string)
    requires Spells(s)
    ensures Upper(s) == if s[0] in {'H', 'h'} then "HOT" else if s[0] == 'İ' then "İCE" else "ICE"
  {
  }

  // Names and variants

  /** The name of a fact is its squeezed subject without HOT and ICE; its variant is the given one in capitals, or else the
      first HOT or ICE of the subject. */
  lemma {:induction false} NameAndVariant(x: Fact, i: int)
    requires var s := Squeeze(x.subject); if NoneSpelled(s) then i == -1 else FirstSpelled(s, i)
    ensures var (s, given) := (Squeeze(x.subject), Squeeze(x.variant));
            && Name(x) == (if i == -1 then s else s[..i] + WithoutTemperature(s[i + 3..]))
            && Variant(x) == if given != "" then Upper(given)
                             else if i == -1 then ""
                             else if s[i] in {'H', 'h'} then "HOT" else if s[i] == 'İ' then "İCE" else "ICE"
  {
    var s := Squeeze(x.subject);
    if i == -1 {
      WithoutNone(s);
    } else {
      WithoutFirst(s, i);
      UpperTemperature(s[i..i + 3]);
      assert s[i..i + 3][0] == s[i];
    }
  }

  /** The text is these three parts, one after the other. */
  predicate Parts(s: string, before: string, part: string, after: string) {
    s == before + part + after
  }

  ghost predicate Within(hay: string, needle: string) {
    exists before, after :: Parts(hay, before, needle, after)
  }

  lemma {:induction false} WithinExactly(hay: string, needle: string)
    ensures Contains(hay, needle) <==> Within(hay, needle)
  {
    if i :| 0 <= i <= |hay| && At(hay, needle, i) {
      assert Parts(hay, hay[..i], needle, hay[i + |needle|..]);
    }
    if before, after :| Parts(hay, before, needle, after) {
      assert At(hay, needle, |before|);
    }
  }

  /** Two names are related if and only if both have at least two characters and one stands in the other. */
  lemma {:induction false} RelatedExactly(a: string, b: string)
    ensures Related(a, b) <==> |a| >= 2 && |b| >= 2 && (Within(a, b) || Within(b, a))
  {
    WithinExactly(a, b);
    WithinExactly(b, a);
    RelatedSymmetric(a, b);
    if Within(a, b) {
      var before, after :| Parts(a, before, b, after);
      assert |b| <= |a|;
    }
    if Within(b, a) {
      var before, after :| Parts(b, before, a, after);
      assert |a| <= |b|;
    }
  }

  // Categories

  /** HOT or ICE in capitals stands at `i`. */
  predicate CapitalsAt(s: string, i: int) {
    0 <= i && i + 3 <= |s| && s[i..i + 3] in {"HOT", "ICE"}
  }

  lemma {:induction false} CapitalsLater(s: string, i: int)
    requires s != "" && i >= 1
    ensures CapitalsAt(s, i) <==> CapitalsAt(s[1..], i - 1)
  {
    if i + 3 <= |s| {
      assert s[1..][i - 1..i - 1 + 3] == s[i..i + 3];
    }
  }

  /** A category lacks the first HOT or ICE in capitals, and then its rest lacks them too. */
  lemma {:induction false} ErasedFirst(s: string, i: nat)
    requires CapitalsAt(s, i) && forall j | 0 <= j < i :: !CapitalsAt(s, j)
    ensures EraseTemperature(s) == s[..i] + EraseTemperature(s[i + 3..])
  {
    if i == 0 {
      assert s[0..3] == s[..3];
    } else {
      assert !CapitalsAt(s, 0) && s[0..3] == s[..3];
      var rest := s[1..];
      CapitalsLater(s, i);
      forall j | 0 <= j < i - 1
        ensures !CapitalsAt(rest, j)
      {
        CapitalsLater(s, j + 1);
      }
      ErasedFirst(rest, i - 1);
      AfterFirst(s, i, EraseTemperature(s[i + 3..]));
    }
  }

  lemma {:induction false} ErasedNone(s: string)
    requires forall j :: !CapitalsAt(s, j)
    ensures EraseTemperature(s) == s
  {
    if |s| >= 3 {
      assert !CapitalsAt(s, 0) && s[0..3] == s[..3];
      forall j
        ensures !CapitalsAt(s[1..], j)
      {
        if j >= 0 {
          CapitalsLater(s, j + 1);
        }
      }
      ErasedNone(s[1..]);
      assert s == [s[0]] + s[1..];
    }
  }
}
