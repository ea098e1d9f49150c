/** Python string operations the scripts rely on: substring search, replacement and character deletion. */
module Strings {

  datatype Option<+T> = None | Some(value: T)

  /** `needle` occurs in `hay` at position `i`. */
  predicate At(hay: string, needle: string, i: int) {
    0 <= i && i + |needle| <= |hay| && hay[i..i + |needle|] == needle
  }

  /** Python's `needle in hay`. */
  predicate Contains(hay: string, needle: string) {
    exists i | 0 <= i <= |hay| :: At(hay, needle, i)
  }

  /** Deletes every character of `drop`. */
  function Erase(s: string, drop: set<char>): string {
    if s == [] then [] else (if s[0] in drop then [] else [s[0]]) + Erase(s[1..], drop)
  }

  lemma {:induction false} EraseMembers(s: string, drop: set<char>)
    ensures forall c :: c in Erase(s, drop) <==> c in s && c !in drop
  {
    if s != [] {
      assert s == [s[0]] + s[1..];
      EraseMembers(s[1..], drop);
    }
  }

  lemma {:induction false} EraseNothing(s: string, drop: set<char>)
    requires forall i | 0 <= i < |s| :: s[i] !in drop
    ensures Erase(s, drop) == s
  {
    if s != [] {
      assert s == [s[0]] + s[1..];
      EraseNothing(s[1..], drop);
    }
  }

  lemma {:induction false} EraseConcat(a: string, b: string, drop: set<char>)
    ensures Erase(a + b, drop) == Erase(a, drop) + Erase(b, drop)
  {
    if a == [] {
      assert a + b == b;
    } else {
      assert (a + b)[1..] == a[1..] + b;
      EraseConcat(a[1..], b, drop);
    }
  }

  /** Python's `s.replace(from, to)`: leftmost, non-overlapping. */
  function Replace(s: string, from: string, to: string): string
    requires from != []
    decreases |s|
  {
    if |s| < |from| then s
    else if from <= s then to + Replace(s[|from|..], from, to)
    else [s[0]] + Replace(s[1..], from, to)
  }

  lemma {:induction false} ReplaceAbsent(s: string, from: string, to: string)
    requires from != [] && forall i | 0 <= i < |s| :: s[i] != from[0]
    ensures Replace(s, from, to) == s
  {
    if |s| >= |from| {
      ReplaceAbsent(s[1..], from, to);
      assert s == [s[0]] + s[1..];
    }
  }

  /** The characters Python's `\s` and `str.strip()` treat as white space. */
  predicate IsSpace(c: char) {
    var u := c as int;
    9 <= u <= 13 || 28 <= u <= 32 || u == 0x85 || u == 0xA0 || u == 0x1680 || 0x2000 <= u <= 0x200A
    || u == 0x2028 || u == 0x2029 || u == 0x202F || u == 0x205F || u == 0x3000
  }

  const SPACES: set<char> := set c: char | IsSpace(c)

  predicate IsDigit(c: char) {
    '0' <= c <= '9'
  }

  predicate AllDigits(s: string) {
    forall i | 0 <= i < |s| :: IsDigit(s[i])
  }

  /** Python's `s.rstrip(chars)`. */
  function RStrip(s: string, chars: set<char>): (r: string)
    ensures r <= s
    ensures r != [] ==> r[|r| - 1] !in chars
    ensures forall i | |r| <= i < |s| :: s[i] in chars
  {
    if s != [] && s[|s| - 1] in chars then RStrip(s[..|s| - 1], chars) else s
  }

  /** Python's `s.lstrip(chars)`. */
  function LStrip(s: string, chars: set<char>): (r: string)
    ensures |r| <= |s| && r == s[|s| - |r|..]
    ensures r != [] ==> r[0] !in chars
    ensures forall i | 0 <= i < |s| - |r| :: s[i] in chars
  {
    if s != [] && s[0] in chars then LStrip(s[1..], chars) else s
  }

  lemma {:induction false} RStripSuffix(a: string, b: string, chars: set<char>)
    ensures RStrip(a + b, chars) == if RStrip(b, chars) == [] then RStrip(a, chars) else a + RStrip(b, chars)
  {
    if b == [] {
      assert a + b == a;
    } else if b[|b| - 1] in chars {
      assert (a + b)[..|a + b| - 1] == a + b[..|b| - 1];
      RStripSuffix(a, b[..|b| - 1], chars);
    }
  }

  lemma {:induction false} RStripKept(s: string, chars: set<char>)
    requires s == [] || s[|s| - 1] !in chars
    ensures RStrip(s, chars) == s
  {
  }

  function Strip(s: string): string {
    RStrip(LStrip(s, SPACES), SPACES)
  }

  lemma {:induction false} Around<T>(s: seq<T>, p: nat)
    requires p < |s|
    ensures s == s[..p] + [s[p]] + s[p + 1..]
  {
  }

  lemma {:induction false} MatchedChar(hay: string, needle: string, i: int, k: nat)
    requires At(hay, needle, i) && k < |needle|
    ensures hay[i + k] == needle[k] && needle[k] in needle
  {
  }

  lemma {:induction false} ContainedChars(hay: string, needle: string, k: nat)
    requires Contains(hay, needle) && k < |needle|
    ensures needle[k] in hay
  {
  }

  lemma {:induction false} ContainsPart(left: string, mid: string, right: string, needle: string)
    requires Contains(mid, needle)
    ensures Contains(left + mid + right, needle)
  {
    var i :| 0 <= i <= |mid| && At(mid, needle, i);
    assert (left + mid + right)[|left| + i..|left| + i + |needle|] == mid[i..i + |needle|];
    assert At(left + mid + right, needle, |left| + i);
  }

  /** A needle without the separator cannot straddle it. */
  lemma {:induction false} MatchBesideBar(a: string, b: string, needle: string, i: nat)
    requires '|' !in needle && At(a + "|" + b, needle, i)
    ensures i + |needle| <= |a| || i > |a|
  {
    if i <= |a| < i + |needle| {
      MatchedChar(a + "|" + b, needle, i, |a| - i);
      assert false;
    }
  }

  lemma {:induction false} ContainsAcrossBar(a: string, b: string, needle: string)
    requires needle != [] && '|' !in needle
    ensures Contains(a + "|" + b, needle) <==> Contains(a, needle) || Contains(b, needle)
  {
    var joined := a + "|" + b;
    if Contains(a, needle) {
      ContainsPart([], a, "|" + b, needle);
      assert [] + a + ("|" + b) == joined;
    }
    if Contains(b, needle) {
      ContainsPart(a + "|", b, [], needle);
      assert a + "|" + b + [] == joined;
    }
    if Contains(joined, needle) {
      var i :| 0 <= i <= |joined| && At(joined, needle, i);
      MatchBesideBar(a, b, needle, i);
      if i + |needle| <= |a| {
        assert a[i..i + |needle|] == joined[i..i + |needle|];
        assert At(a, needle, i);
      } else {
        var j := i - |a| - 1;
        assert b[j..j + |needle|] == joined[i..i + |needle|];
        assert At(b, needle, j);
      }
    }
  }

  /** The text built by appending `"|" + part` for each part in turn. */
  function BarJoin(parts: seq<string>): string {
    if parts == [] then "" else BarJoin(parts[..|parts| - 1]) + "|" + parts[|parts| - 1]
  }

  lemma {:induction false} BarJoinAppend(a: seq<string>, b: seq<string>)
    ensures BarJoin(a + b) == BarJoin(a) + BarJoin(b)
  {
    if b == [] {
      assert a + b == a;
    } else {
      assert (a + b)[..|a + b| - 1] == a + b[..|b| - 1];
      BarJoinAppend(a, b[..|b| - 1]);
    }
  }

  lemma {:induction false} BarJoinGrows(a: seq<string>, b: seq<string>, needle: string)
    requires a <= b && Contains(BarJoin(a), needle)
    ensures Contains(BarJoin(b), needle)
  {
    var more := b[|a|..];
    assert b == a + more;
    BarJoinAppend(a, more);
    ContainsPart([], BarJoin(a), BarJoin(more), needle);
    assert [] + BarJoin(a) + BarJoin(more) == BarJoin(a) + BarJoin(more);
  }

  lemma {:induction false} BarJoinContains(parts: seq<string>, needle: string)
    requires needle != [] && '|' !in needle
    ensures Contains(BarJoin(parts), needle) <==> exists i | 0 <= i < |parts| :: Contains(parts[i], needle)
  {
    if parts != [] {
      var front, last := parts[..|parts| - 1], parts[|parts| - 1];
      BarJoinContains(front, needle);
      ContainsAcrossBar(BarJoin(front), last, needle);
      assert forall i :: 0 <= i < |front| ==> front[i] == parts[i];
      if Contains(BarJoin(front), needle) {
        var i :| 0 <= i < |front| && Contains(front[i], needle);
        assert Contains(parts[i], needle);
      }
    }
  }

  /** Cuts a text at every bar. */
  function BarSplit(s: string): (parts: seq<string>)
    ensures parts != []
  {
    if s == [] then [[]]
    else
      var parts := BarSplit(s[..|s| - 1]);
      var c, last := s[|s| - 1], |parts| - 1;
      if c == '|' then parts + [[]] else parts[..last] + [parts[last] + [c]]
  }

  lemma {:induction false} BarJoinSnoc(parts: seq<string>, part: string)
    ensures BarJoin(parts + [part]) == BarJoin(parts) + "|" + part
  {
  }

  lemma {:induction false} BarSplitJoins(s: string)
    ensures BarJoin(BarSplit(s)) == "|" + s
  {
    if s == [] {
      BarJoinSnoc([], []);
      assert BarSplit(s) == [] + [[]];
    } else {
      var c, parts := s[|s| - 1], BarSplit(s[..|s| - 1]);
      var front, last := parts[..|parts| - 1], parts[|parts| - 1];
      BarSplitJoins(s[..|s| - 1]);
      BarJoinSnoc(parts, []);
      BarJoinSnoc(front, last + [c]);
      assert BarJoin(front) + "|" + (last + [c]) == BarJoin(front) + "|" + last + [c];
    }
  }

  lemma {:induction false} BarSplitParts(s: string, i: nat)
    requires i < |BarSplit(s)|
    ensures '|' !in BarSplit(s)[i]
  {
    if s != [] {
      var parts := BarSplit(s[..|s| - 1]);
      if i < |parts| {
        BarSplitParts(s[..|s| - 1], i);
      }
    }
  }

  /** A needle with a bar is found in the joined text of parts none of which contains it. */
  lemma {:induction false} BarredNeedleStraddles(needle: string)
    requires '|' in needle
    ensures Contains(BarJoin(BarSplit(needle)), needle)
    ensures forall i | 0 <= i < |BarSplit(needle)| :: !Contains(BarSplit(needle)[i], needle)
  {
    var parts := BarSplit(needle);
    BarSplitJoins(needle);
    BehindBar(needle);
    forall i | 0 <= i < |parts|
      ensures !Contains(parts[i], needle)
    {
      BarSplitParts(needle, i);
      BarNotIn(parts[i], needle);
    }
  }

  lemma {:induction false} BehindBar(needle: string)
    ensures Contains("|" + needle, needle)
  {
    assert ("|" + needle)[1..1 + |needle|] == needle;
    assert At("|" + needle, needle, 1);
  }

  lemma {:induction false} BarNotIn(part: string, needle: string)
    requires '|' in needle && '|' !in part
    ensures !Contains(part, needle)
  {
    if Contains(part, needle) {
      var p :| 0 <= p < |needle| && needle[p] == '|';
      ContainedChars(part, needle, p);
    }
  }

  /** Searching the joined text finds exactly what searching each part finds
      if and only if the needle is free of the separator. */
  lemma {:induction false} JoinedSearchExact(needle: string)
    requires needle != []
    ensures '|' !in needle <==>
            forall parts: seq<string> :: Contains(BarJoin(parts), needle) <==>
                                         exists i | 0 <= i < |parts| :: Contains(parts[i], needle)
  {
    if '|' in needle {
      BarredNeedleStraddles(needle);
    } else {
      forall parts: seq<string>
        ensures Contains(BarJoin(parts), needle) <==> exists i | 0 <= i < |parts| :: Contains(parts[i], needle)
      {
        BarJoinContains(parts, needle);
      }
    }
  }
}
