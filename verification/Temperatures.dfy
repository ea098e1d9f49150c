/** Erasing HOT and ICE from a category, and when what is left is still read in it. */
module Temperatures {
  import opened Strings
  import opened FactKeys
  import opened Spelling

  const LETTERS: set<char> := {'H', 'O', 'T', 'I', 'C', 'E'}

  predicate IsWord(s: string) {
    s == "HOT" || s == "ICE"
  }

  lemma {:induction false} TemperatureErases(s: string, drop: set<char>)
    requires LETTERS <= drop
    ensures Erase(EraseTemperature(s), drop) == Erase(s, drop)
  {
    if |s| >= 3 {
      if s[..3] == "HOT" || s[..3] == "ICE" {
        TemperatureErases(s[3..], drop);
        assert s == s[..3] + s[3..];
        EraseConcat(s[..3], s[3..], drop);
        EraseAll(s[..3], drop);
      } else {
        TemperatureErases(s[1..], drop);
        var rest := EraseTemperature(s[1..]);
        assert ([s[0]] + rest)[1..] == rest;
      }
    }
  }

  lemma {:induction false} TemperatureMembers(s: string)
    ensures forall c | c in EraseTemperature(s) :: c in s
  {
    if |s| >= 3 {
      if s[..3] == "HOT" || s[..3] == "ICE" {
        TemperatureMembers(s[3..]);
      } else {
        TemperatureMembers(s[1..]);
      }
    }
  }

  lemma {:induction false} TemperatureLast(s: string)
    requires s != [] && s[|s| - 1] !in LETTERS
    ensures EraseTemperature(s) != [] && EraseTemperature(s)[|EraseTemperature(s)| - 1] == s[|s| - 1]
  {
    if |s| >= 3 {
      if s[..3] == "HOT" || s[..3] == "ICE" {
        assert s[2] == s[..3][2];
        TemperatureLast(s[3..]);
      } else {
        TemperatureLast(s[1..]);
      }
    }
  }

  lemma {:induction false} TemperatureFirst(s: string)
    requires s != [] && s[0] !in LETTERS
    ensures EraseTemperature(s) != [] && EraseTemperature(s)[0] == s[0]
  {
    assert |s| >= 3 ==> s[..3][0] == s[0];
  }

  /** Erasing goes on from where another character stands. */
  lemma {:induction false} TemperatureJoint(p: string, q: string)
    requires (q != [] && q[0] !in LETTERS) || (p != [] && p[|p| - 1] !in LETTERS) || p == [] || q == []
    ensures EraseTemperature(p + q) == EraseTemperature(p) + EraseTemperature(q)
    decreases |p|
  {
    var s := p + q;
    if p == [] {
      assert s == q;
    } else if q == [] {
      assert s == p;
    } else if |s| >= 3 && IsWord(s[..3]) {
      WordWithin(p, q);
      FrontTail(p, q, 3);
      TemperatureJoint(p[3..], q);
    } else {
      FrontTail(p, q, 1);
      if |p| >= 3 {
        FrontTail(p, q, 3);
      }
      TemperatureJoint(p[1..], q);
      TemperatureStep(p);
      TemperatureStep(s);
      Regrouped([p[0]], EraseTemperature(p[1..]), EraseTemperature(q));
    }
  }

  lemma {:induction false} FrontTail(p: string, q: string, n: nat)
    requires n <= |p|
    ensures (p + q)[..n] == p[..n] && (p + q)[n..] == p[n..] + q
  {
  }

  lemma {:induction false} TemperatureStep(p: string)
    requires p != [] && !(|p| >= 3 && IsWord(p[..3]))
    ensures EraseTemperature(p) == [p[0]] + EraseTemperature(p[1..])
  {
    assert p == [p[0]] + p[1..];
  }

  lemma {:induction false} WordWithin(p: string, q: string)
    requires p != [] && q != [] && (q[0] !in LETTERS || p[|p| - 1] !in LETTERS)
    requires |p + q| >= 3 && IsWord((p + q)[..3])
    ensures |p| >= 3
  {
    var s := p + q;
    assert s[0] == s[..3][0] && s[1] == s[..3][1] && s[2] == s[..3][2];
    assert s[|p| - 1] == p[|p| - 1] && s[|p|] == q[0];
  }

  // Shorter by every word

  predicate HasWord(s: string) {
    Contains(s, "HOT") || Contains(s, "ICE")
  }

  lemma {:induction false} ContainsStep(s: string, w: string)
    requires s != [] && w != []
    ensures Contains(s, w) <==> w <= s || Contains(s[1..], w)
  {
    if w <= s {
      assert At(s, w, 0);
    }
    if i :| 0 <= i <= |s| && At(s, w, i) && i > 0 {
      assert s[1..][i - 1..i - 1 + |w|] == s[i..i + |w|];
      assert At(s[1..], w, i - 1);
    }
    if i :| 0 <= i <= |s[1..]| && At(s[1..], w, i) {
      assert s[i + 1..i + 1 + |w|] == s[1..][i..i + |w|];
      assert At(s, w, i + 1);
    }
  }

  lemma {:induction false} WordAhead(s: string)
    requires s != []
    ensures HasWord(s) <==> (|s| >= 3 && IsWord(s[..3])) || HasWord(s[1..])
  {
    ContainsStep(s, "HOT");
    ContainsStep(s, "ICE");
  }

  /** The length of a text, brackets apart. */
  function Size(s: string): nat {
    |Erase(s, BRACKETS)|
  }

  lemma {:induction false} SizeStep(c: char, s: string)
    ensures Size([c] + s) == Size([c]) + Size(s)
  {
    EraseConcat([c], s, BRACKETS);
  }

  lemma {:induction false} SizeWord(s: string)
    requires |s| >= 3 && IsWord(s[..3])
    ensures Size(s) == 3 + Size(s[3..]) && EraseTemperature(s) == EraseTemperature(s[3..])
  {
    EraseSplit(s, 3, BRACKETS);
    EraseNothing(s[..3], BRACKETS);
  }

  lemma {:induction false} NoWordAhead(s: string)
    requires |s| >= 3 && !IsWord(s[..3])
    ensures EraseTemperature(s) == [s[0]] + EraseTemperature(s[1..]) && s == [s[0]] + s[1..]
    ensures Size(s) - Size(EraseTemperature(s)) == Size(s[1..]) - Size(EraseTemperature(s[1..]))
  {
    SizeStep(s[0], s[1..]);
    SizeStep(s[0], EraseTemperature(s[1..]));
    assert s == [s[0]] + s[1..];
  }

  lemma {:induction false} NotMore(s: string)
    ensures Size(EraseTemperature(s)) <= Size(s)
  {
    if |s| >= 3 && IsWord(s[..3]) {
      SizeWord(s);
      NotMore(s[3..]);
    } else if |s| >= 3 {
      NoWordAhead(s);
      NotMore(s[1..]);
    }
  }

  /** Erasing keeps the length, brackets apart, if and only if there is no word, and then it changes nothing. */
  lemma {:induction false} ShorterByWords(s: string)
    ensures Size(EraseTemperature(s)) == Size(s) <==> !HasWord(s)
    ensures !HasWord(s) ==> EraseTemperature(s) == s
  {
    if |s| < 3 {
      assert !HasWord(s);
    } else {
      WordAhead(s);
      if IsWord(s[..3]) {
        SizeWord(s);
        NotMore(s[3..]);
      } else {
        NoWordAhead(s);
        ShorterByWords(s[1..]);
      }
    }
  }

  // Reading what is left

  const EDGE: set<char> := BRACKETS + LETTERS

  predicate EndsWith(s: string, t: string) {
    |t| <= |s| && s[|s| - |t|..] == t
  }

  /** A squeezed category reads on without its HOT and ICE: none stands between other characters, and what the letters
      around these leave behind is next to them; a category of such letters only is searched as it is. */
  predicate ReadsOn(a: string) {
    var (ahead, core, behind) := (Ahead(a, EDGE), Core(a, EDGE), Behind(a, EDGE));
    if core == "" then Contains(Erase(a, BRACKETS), Erase(EraseTemperature(a), BRACKETS))
    else
      && !HasWord(core)
      && EndsWith(Erase(ahead, BRACKETS), Erase(EraseTemperature(ahead), BRACKETS))
      && Erase(EraseTemperature(behind), BRACKETS) <= Erase(behind, BRACKETS)
  }

  predicate Within(s: string, drop: set<char>) {
    forall i | 0 <= i < |s| :: s[i] in drop
  }

  predicate Bounded(s: string, drop: set<char>) {
    s != [] && s[0] !in drop && s[|s| - 1] !in drop
  }

  lemma {:induction false} Ends(p: string, m: string, q: string)
    requires m != []
    ensures (p + m + q)[|p|] == m[0] && (p + m + q)[|p| + |m| - 1] == m[|m| - 1]
  {
  }

  /** Where one text is read in another, their first and last characters that are not dropped stand together. */
  lemma {:induction false} LinedUp(
    l: string, f: string, r: string, l': string, f': string, r': string, drop: set<char>, i: nat)
    requires Within(l, drop) && Within(r, drop) && Within(l', drop) && Within(r', drop)
    requires Bounded(f, drop) && Bounded(f', drop) && At(l + f + r, l' + f' + r', i)
    requires |Erase(l + f + r, drop)| == |Erase(l' + f' + r', drop)|
    ensures i + |l'| == |l| && |f'| == |f|
  {
    var hay, needle := l + f + r, l' + f' + r';
    var first, last := |l|, |l| + |f| - 1;
    Ends(l, f, r);
    Ends(l', f', r');
    MatchedChar(hay, needle, i, |l'|);
    MatchedChar(hay, needle, i, |l'| + |f'| - 1);
    if first < i || i + |needle| <= first {
      DroppedOutside(hay, needle, i, drop, first);
    } else if last < i || i + |needle| <= last {
      DroppedOutside(hay, needle, i, drop, last);
    } else {
      MatchedChar(hay, needle, i, first - i);
      MatchedChar(hay, needle, i, last - i);
    }
  }

  lemma {:induction false} SameMiddle(l: string, f: string, r: string, l': string, f': string, r': string)
    requires |l'| <= |l| && |f| == |f'| && At(l + f + r, l' + f' + r', |l| - |l'|)
    ensures EndsWith(l, l') && r' <= r
  {
    var hay, needle := l + f + r, l' + f' + r';
    var i := |l| - |l'|;
    forall k | 0 <= k < |l'|
      ensures l[i..][k] == l'[k]
    {
      MatchedChar(hay, needle, i, k);
    }
    forall k | 0 <= k < |r'|
      ensures r[k] == r'[k]
    {
      MatchedChar(hay, needle, i, |l'| + |f'| + k);
    }
  }

  /** An occurrence of three joined texts in three others lines up the middle ones. */
  lemma {:induction false} Aligned(l: string, f: string, r: string, l': string, f': string, r': string, drop: set<char>)
    requires Within(l, drop) && Within(r, drop) && Within(l', drop) && Within(r', drop)
    requires Bounded(f, drop) && Bounded(f', drop)
    requires |Erase(l + f + r, drop)| == |Erase(l' + f' + r', drop)| && Contains(l + f + r, l' + f' + r')
    ensures |f| == |f'| && EndsWith(l, l') && r' <= r
  {
    var i :| 0 <= i <= |l + f + r| && At(l + f + r, l' + f' + r', i);
    LinedUp(l, f, r, l', f', r', drop, i);
    SameMiddle(l, f, r, l', f', r');
  }

  lemma {:induction false} EdgeUntouched(s: string)
    requires Within(s, EDGE)
    ensures forall i | 0 <= i < |s| :: Untouched(s[i])
  {
    forall i | 0 <= i < |s|
      ensures Untouched(s[i])
    {
      assert s[i] in BRACKETS || s[i] in LETTERS;
    }
  }

  lemma {:induction false} PlainBeside(p: string, m: string, q: string)
    requires Within(p, EDGE) && Within(q, EDGE)
    ensures Erase(Corrected(p + m + q), BRACKETS) ==
            Erase(p, BRACKETS) + Erase(Corrected(m), BRACKETS) + Erase(q, BRACKETS)
  {
    EdgeUntouched(p);
    EdgeUntouched(q);
    PlainAround(p, m, q);
  }

  lemma {:induction false} NothingCorrected(s: string)
    requires Within(s, EDGE)
    ensures Corrected(s) == s
  {
  }

  lemma {:induction false} LettersLeft(s: string)
    requires Within(s, EDGE)
    ensures Within(EraseTemperature(s), EDGE)
    ensures Within(Erase(s, BRACKETS), LETTERS) && Within(Erase(EraseTemperature(s), BRACKETS), LETTERS)
  {
    TemperatureMembers(s);
    var t := EraseTemperature(s);
    forall i | 0 <= i < |t|
      ensures t[i] in EDGE
    {
      assert t[i] in t;
    }
    OnlyLetters(s);
    OnlyLetters(t);
  }

  lemma {:induction false} OnlyLetters(s: string)
    requires Within(s, EDGE)
    ensures Within(Erase(s, BRACKETS), LETTERS)
  {
    EraseMembers(s, BRACKETS);
    var e := Erase(s, BRACKETS);
    forall i | 0 <= i < |e|
      ensures e[i] in LETTERS
    {
      assert e[i] in e;
    }
  }

  lemma {:induction false} EraseFirst(s: string, drop: set<char>)
    requires s != [] && s[0] !in drop
    ensures Erase(s, drop) != [] && Erase(s, drop)[0] == s[0]
  {
  }

  lemma {:induction false} BoundsKept(s: string)
    requires Bounded(s, EDGE)
    ensures Bounded(Erase(Corrected(s), BRACKETS), LETTERS) && |Erase(Corrected(s), BRACKETS)| == Size(s)
  {
    EraseFirst(Corrected(s), BRACKETS);
    EraseLast(Corrected(s), BRACKETS);
    CorrectedSize(s, BRACKETS);
  }

  lemma {:induction false} TemperatureBounds(s: string)
    requires Bounded(s, EDGE)
    ensures Bounded(EraseTemperature(s), EDGE)
  {
    TemperatureFirst(s);
    TemperatureLast(s);
  }

  lemma {:induction false} TemperatureThree(p: string, m: string, q: string)
    requires Bounded(m, EDGE)
    ensures EraseTemperature(p + m + q) == EraseTemperature(p) + EraseTemperature(m) + EraseTemperature(q)
  {
    TemperatureJoint(p + m, q);
    TemperatureJoint(p, m);
  }

  lemma {:induction false} JoinedAt(l: string, f: string, r: string, l': string, r': string)
    requires EndsWith(l, l') && r' <= r
    ensures Contains(l + f + r, l' + f + r')
  {
    var i := |l| - |l'|;
    assert l == l[..i] + l' && r == r' + r[|r'|..];
    assert l + f + r == l[..i] + (l' + f + r') + r[|r'|..];
    assert (l + f + r)[i..i + |l' + f + r'|] == l' + f + r';
    assert At(l + f + r, l' + f + r', i);
  }

  lemma {:induction false} JoinedExactly(
    l: string, f: string, r: string, l': string, f': string, r': string, drop: set<char>)
    requires Within(l, drop) && Within(r, drop) && Within(l', drop) && Within(r', drop)
    requires Bounded(f, drop) && Bounded(f', drop) && (|f| == |f'| ==> f == f')
    requires |Erase(l + f + r, drop)| == |Erase(l' + f' + r', drop)|
    ensures Contains(l + f + r, l' + f' + r') <==> |f| == |f'| && EndsWith(l, l') && r' <= r
  {
    if Contains(l + f + r, l' + f' + r') {
      Aligned(l, f, r, l', f', r', drop);
    }
    if |f| == |f'| && EndsWith(l, l') && r' <= r {
      JoinedAt(l, f, r, l', r');
    }
  }

  /** The core keeps its ends, and its length if and only if it has no word. */
  lemma {:induction false} CoreKept(m: string)
    requires Bounded(m, EDGE)
    ensures var (f, f') := (Erase(Corrected(m), BRACKETS), Erase(Corrected(EraseTemperature(m)), BRACKETS));
            Bounded(f, LETTERS) && Bounded(f', LETTERS) && (|f| == |f'| <==> !HasWord(m)) && (|f| == |f'| ==> f == f')
  {
    TemperatureBounds(m);
    BoundsKept(m);
    BoundsKept(EraseTemperature(m));
    ShorterByWords(m);
  }

  lemma {:induction false} AroundCore(p: string, m: string, q: string)
    requires Within(p, EDGE) && Within(q, EDGE) && Bounded(m, EDGE)
    requires |Erase(Erase(Corrected(p + m + q), BRACKETS), LETTERS)|
             == |Erase(Erase(Corrected(EraseTemperature(p + m + q)), BRACKETS), LETTERS)|
    ensures Contains(Erase(Corrected(p + m + q), BRACKETS), Erase(Corrected(EraseTemperature(p + m + q)), BRACKETS)) <==>
            && !HasWord(m)
            && EndsWith(Erase(p, BRACKETS), Erase(EraseTemperature(p), BRACKETS))
            && Erase(EraseTemperature(q), BRACKETS) <= Erase(q, BRACKETS)
  {
    LettersLeft(p);
    LettersLeft(q);
    TemperatureThree(p, m, q);
    CoreKept(m);
    PlainBeside(p, m, q);
    PlainBeside(EraseTemperature(p), EraseTemperature(m), EraseTemperature(q));
    JoinedExactly(Erase(p, BRACKETS), Erase(Corrected(m), BRACKETS), Erase(q, BRACKETS),
                  Erase(EraseTemperature(p), BRACKETS), Erase(Corrected(EraseTemperature(m)), BRACKETS),
                  Erase(EraseTemperature(q), BRACKETS), LETTERS);
  }

  lemma {:induction false} SameLetters(a: string)
    requires Squeeze(a) == a && Squeeze(EraseTemperature(a)) == EraseTemperature(a)
    ensures |Erase(Normal(a), LETTERS)| == |Erase(Normal(EraseTemperature(a)), LETTERS)|
  {
    PlainSize(a, LETTERS);
    PlainSize(EraseTemperature(a), LETTERS);
    TemperatureErases(a, LETTERS + BRACKETS);
  }

  /** A squeezed category without its HOT and ICE is still read in it exactly when it reads on. */
  lemma {:induction false} CategoryExactly(a: string)
    requires Squeeze(a) == a
    ensures Contains(Normal(a), Normal(EraseTemperature(a))) <==> ReadsOn(a)
  {
    var t := EraseTemperature(a);
    TemperatureMembers(a);
    NoIgnored(a, t);
    NormalExactly(a);
    NormalExactly(t);
    Peeled(a, EDGE);
    if Core(a, EDGE) == "" {
      LettersLeft(a);
      NothingCorrected(a);
      NothingCorrected(t);
    } else {
      SameLetters(a);
      AroundCore(Ahead(a, EDGE), Core(a, EDGE), Behind(a, EDGE));
    }
  }
}
