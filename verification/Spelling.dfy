/** Normalisation seen character by character: its two spelling corrections change single characters in place. */
module Spelling {
  import opened Strings
  import opened FactKeys

  const BRACKETS: set<char> := {'[', ']', '(', ')', '（', '）'}

  /** The middle of a misspelt blender. */
  predicate Blender(s: string, i: nat)
    requires i < |s|
  {
    s[i] == '랜' && 0 < i < |s| - 1 && s[i - 1] == '블' && s[i + 1] == '더'
  }

  /** The beginning of a misspelt juice. */
  predicate Juice(s: string, i: nat)
    requires i < |s|
  {
    s[i] == '쥬' && i + 1 < |s| && s[i + 1] == '스'
  }

  function Blended(s: string): string {
    seq(|s|, i requires 0 <= i < |s| => if Blender(s, i) then '렌' else s[i])
  }

  function Juiced(s: string): string {
    seq(|s|, i requires 0 <= i < |s| => if Juice(s, i) then '주' else s[i])
  }

  function Corrected(s: string): string {
    seq(|s|, i requires 0 <= i < |s| => if Blender(s, i) then '렌' else if Juice(s, i) then '주' else s[i])
  }

  lemma {:induction false} BlenderReplaced(s: string)
    ensures Replace(s, "블랜더", "블렌더") == Blended(s)
    decreases |s|
  {
    if |s| < 3 {
      assert Blended(s) == s;
    } else {
      var n := if "블랜더" <= s then 3 else 1;
      BlenderReplaced(s[n..]);
      var r := (if n == 3 then "블렌더" else [s[0]]) + Blended(s[n..]);
      forall i | 0 <= i < |s|
        ensures r[i] == Blended(s)[i]
      {
        assert i >= n ==> r[i] == Blended(s[n..])[i - n];
        if i < 3 && n == 1 {
          assert s[..3] == [s[0], s[1], s[2]];
        }
      }
      assert r == Blended(s);
    }
  }

  lemma {:induction false} JuiceReplaced(s: string)
    ensures Replace(s, "쥬스", "주스") == Juiced(s)
    decreases |s|
  {
    if |s| < 2 {
      assert Juiced(s) == s;
    } else {
      var n := if "쥬스" <= s then 2 else 1;
      JuiceReplaced(s[n..]);
      var r := (if n == 2 then "주스" else [s[0]]) + Juiced(s[n..]);
      forall i | 0 <= i < |s|
        ensures r[i] == Juiced(s)[i]
      {
        assert i >= n ==> r[i] == Juiced(s[n..])[i - n];
        if i < 2 && n == 1 {
          assert s[..2] == [s[0], s[1]];
        }
      }
      assert r == Juiced(s);
    }
  }

  /** Normalising squeezes, corrects character by character, and erases brackets. */
  lemma {:induction false} NormalExactly(s: string)
    ensures Normal(s) == Erase(Corrected(Squeeze(s)), BRACKETS)
  {
    BlenderReplaced(Squeeze(s));
    JuiceReplaced(Blended(Squeeze(s)));
    assert Juiced(Blended(Squeeze(s))) == Corrected(Squeeze(s));
  }

  // Erasing

  lemma {:induction false} EraseErase(s: string, a: set<char>, b: set<char>)
    ensures Erase(Erase(s, a), b) == Erase(s, a + b)
  {
    if s != [] {
      EraseErase(s[1..], a, b);
      var rest := Erase(s[1..], a);
      if s[0] in a {
        assert Erase(s, a) == rest;
      } else {
        assert Erase(s, a) == [s[0]] + rest;
        assert ([s[0]] + rest)[1..] == rest;
      }
    }
  }

  lemma {:induction false} EraseSize(s: string, t: string, drop: set<char>)
    requires |s| == |t| && forall i | 0 <= i < |s| :: s[i] in drop <==> t[i] in drop
    ensures |Erase(s, drop)| == |Erase(t, drop)|
  {
    if s != [] {
      EraseSize(s[1..], t[1..], drop);
    }
  }

  lemma {:induction false} EraseAll(s: string, drop: set<char>)
    requires forall i | 0 <= i < |s| :: s[i] in drop
    ensures Erase(s, drop) == []
  {
    if s != [] {
      EraseAll(s[1..], drop);
    }
  }

  lemma {:induction false} Snoc(s: string)
    requires s != []
    ensures s == s[..|s| - 1] + [s[|s| - 1]]
  {
  }

  lemma {:induction false} EraseLast(s: string, drop: set<char>)
    requires s != [] && s[|s| - 1] !in drop
    ensures Erase(s, drop) == Erase(s[..|s| - 1], drop) + [s[|s| - 1]]
  {
    Snoc(s);
    EraseConcat(s[..|s| - 1], [s[|s| - 1]], drop);
    EraseNothing([s[|s| - 1]], drop);
  }

  /** Characters that no correction touches or makes. */
  predicate Untouched(c: char) {
    c !in {'블', '랜', '더', '렌', '쥬', '스', '주'}
  }

  lemma {:induction false} CorrectedSize(s: string, drop: set<char>)
    requires forall c | c in drop :: Untouched(c)
    ensures |Erase(Corrected(s), drop)| == |Erase(s, drop)|
  {
    EraseSize(Corrected(s), s, drop);
  }

  /** What stands around a text and takes no part in a correction leaves its corrections alone. */
  lemma {:induction false} CorrectedAround(p: string, m: string, q: string)
    requires forall i | 0 <= i < |p| :: Untouched(p[i])
    requires forall i | 0 <= i < |q| :: Untouched(q[i])
    ensures Corrected(p + m + q) == p + Corrected(m) + q
  {
    var s := p + m + q;
    var t := p + Corrected(m) + q;
    forall i | 0 <= i < |s|
      ensures Corrected(s)[i] == t[i]
    {
      if |p| <= i < |p| + |m| {
        assert s[i] == m[i - |p|];
      }
    }
  }

  lemma {:induction false} SqueezedTwice(s: string)
    ensures Squeeze(Squeeze(s)) == Squeeze(s)
  {
    var drop := SPACES + {'/', '·'};
    EraseErase(s, drop, drop);
    assert drop + drop == drop;
  }

  lemma {:induction false} NoIgnored(s: string, t: string)
    requires Squeeze(s) == s && forall i | 0 <= i < |t| :: t[i] in s
    ensures Squeeze(t) == t
  {
    var drop := SPACES + {'/', '·'};
    EraseMembers(s, drop);
    forall i | 0 <= i < |t|
      ensures t[i] !in drop
    {
      assert t[i] in Erase(s, drop);
    }
    EraseNothing(t, drop);
  }

  /** How much of a squeezed text is left of it when normalised. */
  lemma {:induction false} PlainSize(t: string, drop: set<char>)
    requires Squeeze(t) == t && forall c | c in drop :: Untouched(c)
    ensures |Erase(Normal(t), drop)| == |Erase(t, drop + BRACKETS)|
  {
    NormalExactly(t);
    EraseErase(Corrected(t), BRACKETS, drop);
    assert BRACKETS + drop == drop + BRACKETS;
    CorrectedSize(t, drop + BRACKETS);
  }

  // A text and what follows it

  /** A correction reads across the joint and changes the last character of the first text. */
  predicate Across(a: string, b: string) {
    && a != "" && b != ""
    && ((a[|a| - 1] == '쥬' && b[0] == '스') || (a[|a| - 1] == '랜' && |a| >= 2 && a[|a| - 2] == '블' && b[0] == '더'))
  }

  lemma {:induction false} CorrectedFront(a: string, b: string)
    ensures !Across(a, b) ==> Corrected(a + b)[..|a|] == Corrected(a)
    ensures Across(a, b) ==> Corrected(a + b)[..|a| - 1] == Corrected(a)[..|a| - 1] == Corrected(a[..|a| - 1])
    ensures Across(a, b) ==> Corrected(a)[|a| - 1] == a[|a| - 1] && Corrected(a + b)[|a| - 1] == if a[|a| - 1] == '쥬' then '주' else '렌'
  {
    var s := a + b;
    forall i | 0 <= i < |a| - 1
      ensures Corrected(s)[i] == Corrected(a)[i]
    {
    }
  }

  /** What a text becomes in front of another one. */
  function Front(a: string, b: string): string {
    Erase(Corrected(a + b)[..|a|], BRACKETS)
  }

  lemma {:induction false} FrontKept(a: string, b: string)
    requires !Across(a, b)
    ensures Front(a, b) == Erase(Corrected(a), BRACKETS)
  {
    CorrectedFront(a, b);
  }

  lemma {:induction false} FrontChanged(a: string, b: string)
    requires Across(a, b)
    ensures var (f, e) := (Front(a, b), Erase(Corrected(a), BRACKETS));
            && f != [] && |f| == |e| && f[..|f| - 1] == e[..|f| - 1] && e[|f| - 1] == a[|a| - 1]
            && f[|f| - 1] == if a[|a| - 1] == '쥬' then '주' else '렌'
  {
    CorrectedFront(a, b);
    var c := Corrected(a + b)[..|a|];
    assert c[..|a| - 1] == Corrected(a + b)[..|a| - 1];
    EraseLast(Corrected(a), BRACKETS);
    EraseLast(c, BRACKETS);
  }

  /** Normalising two texts together. */
  lemma {:induction false} NormalJoined(s: string, t: string) returns (behind: string)
    ensures Normal(s + t) == Front(Squeeze(s), Squeeze(t)) + behind
  {
    var c := Corrected(Squeeze(s) + Squeeze(t));
    EraseConcat(s, t, SPACES + {'/', '·'});
    NormalExactly(s + t);
    behind := Erase(c[|Squeeze(s)|..], BRACKETS);
    EraseSplit(c, |Squeeze(s)|, BRACKETS);
  }

  lemma {:induction false} EraseSplit(s: string, i: nat, drop: set<char>)
    requires i <= |s|
    ensures Erase(s, drop) == Erase(s[..i], drop) + Erase(s[i..], drop)
  {
    assert s == s[..i] + s[i..];
    EraseConcat(s[..i], s[i..], drop);
  }

  // Peeling

  /** A text without its leading and trailing characters of some kind. */
  function Core(s: string, chars: set<char>): (m: string)
    ensures m != [] ==> m[0] !in chars && m[|m| - 1] !in chars
  {
    RStrip(LStrip(s, chars), chars)
  }

  function Ahead(s: string, chars: set<char>): (p: string)
    ensures forall i | 0 <= i < |p| :: p[i] in chars
  {
    s[..|s| - |LStrip(s, chars)|]
  }

  function Behind(s: string, chars: set<char>): (q: string)
    ensures forall i | 0 <= i < |q| :: q[i] in chars
  {
    LStrip(s, chars)[|Core(s, chars)|..]
  }

  lemma {:induction false} Peeled(s: string, chars: set<char>)
    ensures s == Ahead(s, chars) + Core(s, chars) + Behind(s, chars)
  {
    var r := LStrip(s, chars);
    FrontBack(s, |s| - |r|);
    assert r == Core(s, chars) + Behind(s, chars) by {
      FrontBack(r, |Core(s, chars)|);
    }
    Regrouped(Ahead(s, chars), Core(s, chars), Behind(s, chars));
  }

  lemma {:induction false} FrontBack(s: string, i: nat)
    requires i <= |s|
    ensures s == s[..i] + s[i..]
  {
  }

  lemma {:induction false} Regrouped(p: string, m: string, q: string)
    ensures p + (m + q) == p + m + q
  {
  }

  /** Padding that takes no part in corrections stays beside the normal form. */
  lemma {:induction false} PlainAround(p: string, m: string, q: string)
    requires forall i | 0 <= i < |p| :: Untouched(p[i])
    requires forall i | 0 <= i < |q| :: Untouched(q[i])
    ensures Erase(Corrected(p + m + q), BRACKETS) ==
            Erase(p, BRACKETS) + Erase(Corrected(m), BRACKETS) + Erase(q, BRACKETS)
  {
    CorrectedAround(p, m, q);
    EraseThree(p, Corrected(m), q, BRACKETS);
  }

  lemma {:induction false} EraseThree(p: string, m: string, q: string, drop: set<char>)
    ensures Erase(p + m + q, drop) == Erase(p, drop) + Erase(m, drop) + Erase(q, drop)
  {
    EraseConcat(p + m, q, drop);
    EraseConcat(p, m, drop);
  }

  // Searching

  /** The needle is read at a place that reaches behind the first `n` characters. */
  predicate ReadBehind(hay: string, n: nat, needle: string) {
    exists i | 0 <= i <= |hay| :: At(hay, needle, i) && i + |needle| > n
  }

  lemma {:induction false} ReadAnywhere(front: string, behind: string, needle: string)
    ensures Contains(front + behind, needle) <==> Contains(front, needle) || ReadBehind(front + behind, |front|, needle)
  {
    var hay := front + behind;
    if i :| 0 <= i <= |hay| && At(hay, needle, i) && i + |needle| <= |front| {
      assert front[i..i + |needle|] == hay[i..i + |needle|];
      assert At(front, needle, i);
    }
    if Contains(front, needle) {
      ContainsPart([], front, behind, needle);
      assert [] + front + behind == hay;
    }
  }

  /** Where all of a text that is not dropped is read, only droppable characters stand around. */
  lemma {:induction false} DroppedOutside(hay: string, needle: string, i: nat, drop: set<char>, j: nat)
    requires At(hay, needle, i) && |Erase(needle, drop)| == |Erase(hay, drop)|
    requires j < |hay| && (j < i || i + |needle| <= j)
    ensures hay[j] in drop
  {
    var e := i + |needle|;
    EraseSplit(hay, i, drop);
    EraseSplit(hay[i..], |needle|, drop);
    assert hay[i..][..|needle|] == needle && hay[i..][|needle|..] == hay[e..];
    if j < i {
      assert hay[..i][j] == hay[j];
      EraseMembers(hay[..i], drop);
    } else {
      assert hay[e..][j - e] == hay[j];
      EraseMembers(hay[e..], drop);
    }
  }
}
