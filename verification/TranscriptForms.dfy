/** Which lines are cues and which open a quote: exact forms. */
module TranscriptForms {
  import opened Strings
  import opened Transcript
  import opened TranscriptRoundTrip

  // Cues

  /** The parts of a cue line after its starting time. */
  predicate CueParts(rest: string, before: string, dash: char, after: string, until: string, gap: string, id: string, note: string) {
    && rest == before + ([dash] + (after + (until + (gap + ("[c" + id + "]" + note)))))
    && Blank(before) && dash in {'–', '-', '~'} && Blank(after) && IsTime(until) && Blank(gap) && gap != ""
    && AllDigits(id) && id != ""
  }

  /** A time, a dash, a time and a numbered marker, with blanks between them, and anything behind. */
  ghost predicate IsCue(s: string, time: string) {
    && IsTime(time) && time <= s
    && exists before, dash, after, until, gap, id, note :: CueParts(s[|time|..], before, dash, after, until, gap, id, note)
  }

  lemma {:induction false} TimeTaken(s: string)
    requires TimeLength(s) > 0
    ensures IsTime(s[..TimeLength(s)])
  {
  }

  lemma {:induction false} Cut(s: string, i: nat)
    requires i <= |s|
    ensures s == s[..i] + s[i..]
  {
  }

  lemma {:induction false} StripFront(s: string) returns (blank: string)
    ensures s == blank + LStrip(s, SPACES) && Blank(blank)
  {
    blank := s[..|s| - |LStrip(s, SPACES)|];
  }

  lemma {:induction false} MarkerTaken(s: string) returns (id: string, note: string)
    requires HasMarker(s)
    ensures s == "[c" + id + "]" + note && AllDigits(id) && id != ""
  {
    var n := DigitCount(s[2..]);
    id, note := s[2..][..n], s[3 + n..];
    assert s == [s[0], s[1]] + id + [s[2 + n]] + note;
  }

  lemma {:induction false} MarkerGiven(id: string, note: string)
    requires AllDigits(id) && id != ""
    ensures HasMarker("[c" + id + "]" + note)
  {
    var s := "[c" + id + "]" + note;
    assert s[2..] == id + ("]" + note);
    DigitsFirst(id, "]" + note);
    assert s[2 + |id|] == ']';
  }

  /** The tail of a cue line, from its ending time on. */
  predicate CueTail(tail: string, until: string, gap: string, id: string, note: string) {
    tail == until + (gap + ("[c" + id + "]" + note)) && IsTime(until) && Blank(gap) && gap != "" && AllDigits(id) && id != ""
  }

  lemma {:induction false} TailTaken(tail: string) returns (until: string, gap: string, id: string, note: string)
    requires var m := TimeLength(tail); 0 < m < |tail| && tail[m] in SPACES && HasMarker(LStrip(tail[m..], SPACES))
    ensures CueTail(tail, until, gap, id, note)
  {
    var m := TimeLength(tail);
    TimeTaken(tail);
    until := tail[..m];
    gap := StripFront(tail[m..]);
    id, note := MarkerTaken(LStrip(tail[m..], SPACES));
    GapThere(tail[m..], gap);
    Cut(tail, m);
  }

  /** What the pattern finds after the starting time. */
  lemma {:induction false} RestTaken(rest: string, s1: string, tail: string) returns (
      before: string, after: string, until: string, gap: string, id: string, note: string)
    requires s1 == LStrip(rest, SPACES) && s1 != [] && s1[0] in DASHES && tail == LStrip(s1[1..], SPACES)
    requires var m := TimeLength(tail); 0 < m < |tail| && tail[m] in SPACES && HasMarker(LStrip(tail[m..], SPACES))
    ensures CueParts(rest, before, s1[0], after, until, gap, id, note)
  {
    before := StripFront(rest);
    after := StripFront(s1[1..]);
    until, gap, id, note := TailTaken(tail);
    Together(rest, before, s1, after, tail, until, gap, id, note);
  }

  lemma {:induction false} CueTaken(s: string)
    requires Cue(s).Some?
    ensures IsCue(s, Cue(s).value)
  {
    var n := TimeLength(s);
    TimeTaken(s);
    var s1 := LStrip(s[n..], SPACES);
    var before, after, until, gap, id, note := RestTaken(s[n..], s1, LStrip(s1[1..], SPACES));
    assert Cue(s).value == s[..n] && |s[..n]| == n;
  }

  lemma {:induction false} GapThere(s: string, gap: string)
    requires s != [] && s[0] in SPACES && s == gap + LStrip(s, SPACES)
    ensures gap != ""
  {
  }

  lemma {:induction false} Together(
    rest: string, before: string, s1: string, after: string, tail: string, until: string, gap: string, id: string, note: string)
    requires rest == before + s1 && s1 != [] && s1[1..] == after + tail && CueTail(tail, until, gap, id, note)
    requires Blank(before) && Blank(after) && s1[0] in DASHES
    ensures CueParts(rest, before, s1[0], after, until, gap, id, note)
  {
    assert s1 == [s1[0]] + s1[1..];
  }

  lemma {:induction false} CueGiven(
    time: string, rest: string, before: string, dash: char, after: string, until: string, gap: string, id: string, note: string)
    requires IsTime(time) && CueParts(rest, before, dash, after, until, gap, id, note)
    ensures Cue(time + rest) == Some(time)
  {
    var marked := "[c" + id + "]" + note;
    var tail := until + (gap + marked);
    var s1 := [dash] + (after + tail);
    TimeFirst(until, gap + marked);
    NotSpace(dash);
    NotSpace(until[0]);
    NotSpace('[');
    LStripBlank(before, s1);
    assert s1[1..] == after + tail && tail[0] == until[0];
    LStripBlank(after, tail);
    assert marked[0] == '[' && tail[|until|] == gap[0];
    LStripBlank(gap, marked);
    MarkerGiven(id, note);
    CueFrom(time, rest, s1, tail);
  }

  lemma {:induction false} CueWhole(s: string, time: string, rest: string)
    requires time <= s && rest == s[|time|..]
    ensures s == time + rest
  {
  }

  lemma {:induction false} CueRecognised(
    s: string, time: string, rest: string,
    before: string, dash: char, after: string, until: string, gap: string, id: string, note: string)
    requires s == time + rest && IsTime(time) && CueParts(rest, before, dash, after, until, gap, id, note)
    ensures Cue(s) == Some(time)
  {
    CueGiven(time, rest, before, dash, after, until, gap, id, note);
  }

  /** A line given without outer blanks is a cue, with this starting time, if and only if it has the form of one. */
  lemma {:induction false} CueExactly(s: string, time: string)
    ensures Cue(s) == Some(time) <==> IsCue(s, time)
  {
    if Cue(s) == Some(time) {
      CueTaken(s);
    }
    if IsTime(time) && time <= s {
      var rest := s[|time|..];
      CueWhole(s, time, rest);
      forall before, dash, after, until, gap, id, note | CueParts(rest, before, dash, after, until, gap, id, note)
        ensures Cue(s) == Some(time)
      {
        CueRecognised(s, time, rest, before, dash, after, until, gap, id, note);
      }
    }
  }

  // Quotes

  /** The first character that is not blank stands at `i`, and is a quotation mark. */
  predicate QuoteAt(line: string, i: nat) {
    i < |line| && Blank(line[..i]) && line[i] in {'"', '“'}
  }

  lemma {:induction false} QuoteFirst(line: string, i: nat)
    requires QuoteAt(line, i)
    ensures LStrip(line, SPACES) == line[i..]
  {
    NotSpace(line[i]);
    assert line == line[..i] + line[i..];
    LStripBlank(line[..i], line[i..]);
  }

  lemma {:induction false} Behind(s: string, i: nat)
    requires i < |s|
    ensures s[i..][1..] == s[i + 1..] && s[i..][0] == s[i]
  {
  }

  lemma {:induction false} InkAt(line: string) returns (i: nat)
    ensures i <= |line| && LStrip(line, SPACES) == line[i..] && Blank(line[..i])
  {
    i := |line| - |LStrip(line, SPACES)|;
  }

  lemma {:induction false} OpenedAt(line: string) returns (i: nat)
    requires Opened(line).Some?
    ensures QuoteAt(line, i) && Opened(line) == Some(Strip(line[i + 1..]))
  {
    i := InkAt(line);
    OpenedFrom(line, i);
  }

  lemma {:induction false} OpenedFrom(line: string, i: nat)
    requires i <= |line| && LStrip(line, SPACES) == line[i..] && Opened(line).Some?
    ensures i < |line| && line[i] in {'"', '“'} && Opened(line) == Some(Strip(line[i + 1..]))
  {
    Behind(line, i);
  }

  /** A line opens a quote if and only if its first character that is not blank is a quotation mark; what follows that,
      without outer blanks, is the beginning of the quote. */
  lemma {:induction false} OpenedExactly(line: string, body: string)
    ensures Opened(line) == Some(body) <==> exists i: nat :: QuoteAt(line, i) && body == Strip(line[i + 1..])
  {
    if Opened(line).Some? {
      var i := OpenedAt(line);
    }
    forall i: nat | QuoteAt(line, i)
      ensures Opened(line) == Some(Strip(line[i + 1..]))
    {
      QuoteFirst(line, i);
      assert line[i..][1..] == line[i + 1..] && line[i..][0] == line[i];
    }
  }

  /** A line closes the quote if and only if it ends in a quotation mark; all of these are then taken off its end. */
  lemma {:induction false} ClosesExactly(s: string)
    ensures Closes(s) <==> exists i :: 0 <= i < |s| && i == |s| - 1 && s[i] in {'"', '”'}
    ensures Unquoted(s) <= s && (forall i | |Unquoted(s)| <= i < |s| :: s[i] in {'"', '”'})
    ensures Unquoted(s) != "" ==> Unquoted(s)[|Unquoted(s)| - 1] !in {'"', '”'}
  {
    if Closes(s) {
      assert s[|s| - 1] in {'"', '”'};
    }
  }

  // One line at a time

  lemma {:induction false} StripBack(s: string) returns (blank: string)
    ensures s == RStrip(s, SPACES) + blank && Blank(blank)
  {
    blank := s[|RStrip(s, SPACES)|..];
    Cut(s, |RStrip(s, SPACES)|);
  }

  lemma {:induction false} StripEnds(s: string)
    ensures Strip(s) != "" ==> Strip(s)[0] !in SPACES && Strip(s)[|Strip(s)| - 1] !in SPACES
  {
    var rest := LStrip(s, SPACES);
    assert Strip(s) <= rest;
  }

  /** Stripped of blanks at both ends, and of nothing else. */
  lemma {:induction false} StripExactly(s: string) returns (before: string, text: string, after: string)
    ensures text == Strip(s) && s == before + (text + after) && Blank(before) && Blank(after)
    ensures text != "" ==> text[0] !in SPACES && text[|text| - 1] !in SPACES
  {
    before := StripFront(s);
    after := StripBack(LStrip(s, SPACES));
    text := Strip(s);
    StripEnds(s);
  }

  /** The utterance is finished: its time in square brackets, a space, and what was said. */
  predicate Finished(s: State, s': State, time: string, text: string) {
    s' == State(s.out + ["[" + time + "] " + text], None, None)
  }

  predicate EndsQuoted(s: string) {
    s != "" && s[|s| - 1] in {'"', '”'}
  }

  /** Between quotes: a cue sets the time, a quote after a cue begins an utterance and may end it, and all else is ignored. */
  ghost predicate OutsideQuote(s: State, line: string, s': State) {
    var t := Strip(line);
    && (forall time | IsCue(t, time) :: s' == s.(cue := Some(time)))
    && ((forall time :: !IsCue(t, time)) ==>
          && (forall i: nat | QuoteAt(line, i) && s.cue.Some? ::
                var body := Strip(line[i + 1..]);
                if EndsQuoted(body) then Finished(s, s', s.cue.value, Unquoted(body)) else s' == s.(buf := Some([Unquoted(body)])))
          && (s.cue.None? || (forall i: nat :: !QuoteAt(line, i)) ==> s' == s))
  }

  /** Within a quote: remarks are ignored, and any other line is said, up to the one that ends in a quotation mark. */
  predicate InsideQuote(s: State, line: string, s': State)
    requires s.cue.Some? && s.buf.Some?
  {
    var t := Strip(line);
    var said := s.buf.value + [Unquoted(t)];
    if t != "" && t[0] == '※' then s' == s
    else if EndsQuoted(t) then Finished(s, s', s.cue.value, Spaced(NonEmpty(said)))
    else s' == s.(buf := Some(said))
  }

  lemma {:induction false} QuoteTaken(s: State, line: string, s': State, i: nat, body: string)
    requires s.buf.None? && s.cue.Some? && s' == Step(s, line) && Cue(Strip(line)).None?
    requires QuoteAt(line, i) && body == Strip(line[i + 1..])
    ensures if EndsQuoted(body) then Finished(s, s', s.cue.value, Unquoted(body)) else s' == s.(buf := Some([Unquoted(body)]))
  {
    OpenedExactly(line, body);
    ClosesExactly(body);
  }

  lemma {:induction false} NoQuote(line: string)
    requires forall i: nat :: !QuoteAt(line, i)
    ensures Opened(line).None?
  {
    if Opened(line).Some? {
      var i := OpenedAt(line);
    }
  }

  lemma {:induction false} NoCue(t: string)
    requires forall time :: !IsCue(t, time)
    ensures Cue(t).None?
  {
    if Cue(t).Some? {
      CueExactly(t, Cue(t).value);
    }
  }

  lemma {:induction false} OutsideExactly(s: State, line: string, s': State)
    requires s.buf.None? && s' == Step(s, line)
    ensures OutsideQuote(s, line, s')
  {
    var t := Strip(line);
    forall time | IsCue(t, time)
      ensures s' == s.(cue := Some(time))
    {
      CueExactly(t, time);
    }
    if forall time :: !IsCue(t, time) {
      NoCue(t);
      forall i: nat | QuoteAt(line, i) && s.cue.Some?
        ensures var body := Strip(line[i + 1..]);
                if EndsQuoted(body) then Finished(s, s', s.cue.value, Unquoted(body)) else s' == s.(buf := Some([Unquoted(body)]))
      {
        QuoteTaken(s, line, s', i, Strip(line[i + 1..]));
      }
      if forall i: nat :: !QuoteAt(line, i) {
        NoQuote(line);
      }
    }
  }

  lemma {:induction false} InsideExactly(s: State, line: string, s': State)
    requires s.cue.Some? && s.buf.Some? && s' == Step(s, line)
    ensures InsideQuote(s, line, s')
  {
    JoinSpokenExactly(s.buf.value + [Unquoted(Strip(line))]);
  }

  /** A text without a cue is no script: it comes back stripped, with no count; and only such a text has no count. */
  lemma {:induction false} NoScript(raw: string)
    ensures (forall line, time | line in Lines(raw) :: !IsCue(Strip(line), time)) ==> Parsed(raw) == (Strip(raw), 0)
    ensures Parsed(raw).1 == 0 ==> Parsed(raw).0 == Strip(raw)
  {
    var lines := Lines(raw);
    if forall line, time | line in lines :: !IsCue(Strip(line), time) {
      forall i | 0 <= i < |lines|
        ensures Cue(Strip(lines[i])) == None
      {
        var t := Strip(lines[i]);
        if Cue(t).Some? {
          CueExactly(t, Cue(t).value);
        }
      }
      FeedIgnored(START, lines);
    }
  }
}
