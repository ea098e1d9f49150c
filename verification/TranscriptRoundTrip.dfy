/** Printing utterances as a script and parsing the script back. */
module TranscriptRoundTrip {
  import opened Strings
  import opened Transcript

  // Splitting undoes joining

  predicate Free(s: string, c: char) {
    forall i | 0 <= i < |s| :: s[i] != c
  }

  predicate AllFree(lines: seq<string>, c: char) {
    forall i | 0 <= i < |lines| :: Free(lines[i], c)
  }

  lemma {:induction false} SplitFree(s: string)
    requires Free(s, '\n')
    ensures Split(s) == [s]
  {
    if s != [] {
      SplitFree(s[..|s| - 1]);
      assert s[..|s| - 1] + [s[|s| - 1]] == s;
    }
  }

  lemma {:induction false} SplitAppend(a: string, line: string)
    requires Free(line, '\n')
    ensures Split(a + "\n" + line) == Split(a) + [line]
  {
    var s := a + "\n" + line;
    if line == [] {
      assert s[..|s| - 1] == a;
    } else {
      var front, c := line[..|line| - 1], line[|line| - 1];
      SplitAppend(a, front);
      assert s[..|s| - 1] == a + "\n" + front && s[|s| - 1] == c;
      assert front + [c] == line;
      var before := Split(a) + [front];
      assert before[..|before| - 1] == Split(a);
    }
  }

  lemma {:induction false} SplitJoin(lines: seq<string>)
    requires lines != [] && AllFree(lines, '\n')
    ensures Split(JoinLines(lines, "\n")) == lines
  {
    if |lines| == 1 {
      SplitFree(lines[0]);
    } else {
      var front, last := lines[..|lines| - 1], lines[|lines| - 1];
      SplitJoin(front);
      SplitAppend(JoinLines(front, "\n"), last);
      assert front + [last] == lines;
    }
  }

  lemma {:induction false} ReplaceNothing(s: string)
    requires Free(s, '\r')
    ensures Replace(s, "\r\n", "\n") == s
  {
    if |s| >= 2 {
      ReplaceNothing(s[1..]);
      assert s == [s[0]] + s[1..];
    }
  }

  lemma {:induction false} ReplaceFirst(a: string, rest: string)
    requires Free(a, '\r')
    ensures Replace(a + "\r\n" + rest, "\r\n", "\n") == a + "\n" + Replace(rest, "\r\n", "\n")
  {
    var s := a + "\r\n" + rest;
    if a == [] {
      assert s == "\r\n" + rest && s[2..] == rest;
    } else {
      ReplaceFirst(a[1..], rest);
      assert s[1..] == a[1..] + "\r\n" + rest;
      assert a == [a[0]] + a[1..];
    }
  }

  lemma {:induction false} JoinFree(lines: seq<string>, c: char)
    requires AllFree(lines, c) && c != '\n'
    ensures Free(JoinLines(lines, "\n"), c)
  {
    if |lines| > 1 {
      JoinFree(lines[..|lines| - 1], c);
    }
  }

  lemma {:induction false} JoinCons(lines: seq<string>, eol: string)
    requires |lines| > 1
    ensures JoinLines(lines, eol) == lines[0] + eol + JoinLines(lines[1..], eol)
  {
    if |lines| > 2 {
      JoinCons(lines[..|lines| - 1], eol);
      assert lines[..|lines| - 1][1..] == lines[1..][..|lines[1..]| - 1];
    }
  }

  lemma {:induction false} ReplaceJoin(lines: seq<string>)
    requires AllFree(lines, '\r')
    ensures Replace(JoinLines(lines, "\r\n"), "\r\n", "\n") == JoinLines(lines, "\n")
  {
    if |lines| == 1 {
      ReplaceNothing(lines[0]);
    } else if |lines| > 1 {
      JoinCons(lines, "\r\n");
      JoinCons(lines, "\n");
      ReplaceJoin(lines[1..]);
      ReplaceFirst(lines[0], JoinLines(lines[1..], "\r\n"));
    }
  }

  /** Lines come back from either line ending. */
  lemma {:induction false} LinesOfJoin(lines: seq<string>)
    requires lines != [] && AllFree(lines, '\n') && AllFree(lines, '\r')
    ensures Lines(JoinLines(lines, "\n")) == lines && Lines(JoinLines(lines, "\r\n")) == lines
  {
    JoinFree(lines, '\r');
    ReplaceNothing(JoinLines(lines, "\n"));
    ReplaceJoin(lines);
    SplitJoin(lines);
  }

  // Stripping decorations

  predicate Blank(s: string) {
    forall i | 0 <= i < |s| :: s[i] in SPACES
  }

  lemma {:induction false} LStripBlank(blank: string, s: string)
    requires Blank(blank) && (s == [] || s[0] !in SPACES)
    ensures LStrip(blank + s, SPACES) == s
  {
    if blank == [] {
      assert blank + s == s;
    } else {
      assert (blank + s)[1..] == blank[1..] + s;
      LStripBlank(blank[1..], s);
    }
  }

  /** A text without outer white space. */
  predicate Tight(s: string) {
    s != [] && s[0] !in SPACES && s[|s| - 1] !in SPACES
  }

  lemma {:induction false} StripTight(indent: string, s: string)
    requires Blank(indent) && Tight(s)
    ensures Strip(indent + s) == s
  {
    LStripBlank(indent, s);
    RStripKept(s, SPACES);
  }

  // Cue lines

  /** One or two digits, a colon, and two digits. */
  predicate IsTime(t: string) {
    || (|t| == 4 && IsDigit(t[0]) && t[1] == ':' && IsDigit(t[2]) && IsDigit(t[3]))
    || (|t| == 5 && IsDigit(t[0]) && IsDigit(t[1]) && t[2] == ':' && IsDigit(t[3]) && IsDigit(t[4]))
  }

  /** A cue line: starting and ending time, a marker, and any label. */
  datatype CueLine = CueLine(
    indent: string, time: string, before: string, dash: char, after: string, until: string, gap: string, id: string, note: string)
  {
    predicate Valid() {
      && Blank(indent) && IsTime(time) && Blank(before) && dash in {'–', '-', '~'} && Blank(after) && IsTime(until)
      && Blank(gap) && gap != [] && id != [] && AllDigits(id)
    }

    function Marker(): string {
      "[c" + id + "]"
    }

    function Text(): string {
      indent + (time + (before + ([dash] + (after + (until + (gap + Marker())))))) + note
    }
  }

  lemma {:induction false} NotSpace(c: char)
    requires IsDigit(c) || c in DASHES || c in OPENING || c in CLOSING || c == '[' || c == ']'
    ensures c !in SPACES
  {
  }

  lemma {:induction false} TimeFirst(t: string, rest: string)
    requires IsTime(t)
    ensures TimeLength(t + rest) == |t| && (t + rest)[|t|..] == rest && IsDigit(t[0])
  {
  }

  lemma {:induction false} DigitsFirst(d: string, rest: string)
    requires AllDigits(d) && (rest == [] || !IsDigit(rest[0]))
    ensures DigitCount(d + rest) == |d|
  {
    if d == [] {
      assert d + rest == rest;
    } else {
      assert (d + rest)[1..] == d[1..] + rest;
      DigitsFirst(d[1..], rest);
    }
  }

  lemma {:induction false} MarkerRead(c: CueLine, note: string)
    requires c.Valid()
    ensures HasMarker(c.Marker() + note)
  {
    var s := c.Marker() + note;
    assert s[2..] == c.id + ("]" + note);
    DigitsFirst(c.id, "]" + note);
    assert s[2 + |c.id|] == ']';
  }

  /** The tail of a cue line, from the ending time on. */
  lemma {:induction false} TailRead(c: CueLine, note: string)
    requires c.Valid()
    ensures var s := c.until + (c.gap + (c.Marker() + note));
            && TimeLength(s) == |c.until| < |s| && s[|c.until|] in SPACES && s[0] !in SPACES
            && HasMarker(LStrip(s[|c.until|..], SPACES))
  {
    TimeFirst(c.until, c.gap + (c.Marker() + note));
    NotSpace(c.until[0]);
    NotSpace('[');
    LStripBlank(c.gap, c.Marker() + note);
    MarkerRead(c, note);
    assert (c.until + (c.gap + (c.Marker() + note)))[|c.until|] == c.gap[0];
  }

  lemma {:induction false} CueFrom(t: string, r: string, s1: string, s2: string)
    requires IsTime(t) && LStrip(r, SPACES) == s1 && s1 != [] && s1[0] in DASHES && LStrip(s1[1..], SPACES) == s2
    requires var m := TimeLength(s2); 0 < m < |s2| && s2[m] in SPACES && HasMarker(LStrip(s2[m..], SPACES))
    ensures Cue(t + r) == Some(t)
  {
    TimeFirst(t, r);
    assert (t + r)[..|t|] == t;
  }

  lemma {:induction false} CueParts(c: CueLine, note: string)
    requires c.Valid()
    ensures Cue(c.time + (c.before + ([c.dash] + (c.after + (c.until + (c.gap + (c.Marker() + note))))))) == Some(c.time)
  {
    var tail := c.until + (c.gap + (c.Marker() + note));
    var s1 := [c.dash] + (c.after + tail);
    TailRead(c, note);
    NotSpace(c.dash);
    LStripBlank(c.before, s1);
    assert s1[1..] == c.after + tail;
    LStripBlank(c.after, tail);
    CueFrom(c.time, c.before + s1, s1, tail);
  }

  lemma {:induction false} StripAround(indent: string, core: string, note: string)
    requires Blank(indent) && Tight(core)
    ensures Strip(indent + core + note) == core + RStrip(note, SPACES)
  {
    assert indent + core + note == indent + (core + note);
    LStripBlank(indent, core + note);
    RStripSuffix(core, note, SPACES);
    RStripKept(core, SPACES);
  }

  lemma {:induction false} Reassociate(
    t: string, b: string, d: string, a: string, u: string, g: string, m: string, n: string)
    ensures t + (b + (d + (a + (u + (g + m))))) + n == t + (b + (d + (a + (u + (g + (m + n))))))
  {
  }

  /** A printed cue line is recognised, with its starting time. */
  lemma {:induction false} CueRead(c: CueLine)
    requires c.Valid()
    ensures Cue(Strip(c.Text())) == Some(c.time)
  {
    var core := c.time + (c.before + ([c.dash] + (c.after + (c.until + (c.gap + c.Marker())))));
    var note := RStrip(c.note, SPACES);
    assert Tight(core) by {
      TimeFirst(c.time, []);
      NotSpace(c.time[0]);
      NotSpace(']');
      assert core[|core| - 1] == ']';
    }
    StripAround(c.indent, core, c.note);
    Reassociate(c.time, c.before, [c.dash], c.after, c.until, c.gap, c.Marker(), note);
    CueParts(c, note);
  }

  // Quoted blocks

  /** A spoken line: not blank at its ends and not ending in a closing quote. */
  predicate Spoken(text: string) {
    Tight(text) && text[|text| - 1] !in {'"', '”'}
  }

  /** What stands between the quotes after the first line: spoken lines and remarks. */
  datatype Inner = Said(indent: string, text: string) | Remark(line: string)
  {
    predicate Valid() {
      match this
      case Said(indent, text) => Blank(indent) && Spoken(text) && text[0] != '※'
      case Remark(line) => var s := Strip(line); s != [] && s[0] == '※'
    }
  }

  /** One utterance: lines to be ignored, its cue, more lines to be ignored, and the quoted lines. */
  datatype Block = Block(
    noise: seq<string>, cue: CueLine, between: seq<string>,
    indent: string, opening: char, first: string, rest: seq<Inner>, closing: char)
  {
    predicate Valid() {
      && cue.Valid() && Blank(indent) && opening in {'"', '“'} && closing in {'"', '”'} && Spoken(first)
      && (forall i | 0 <= i < |noise| :: Cue(Strip(noise[i])) == None)
      && (forall i | 0 <= i < |between| :: Cue(Strip(between[i])) == None && Opened(between[i]) == None)
      && (forall i | 0 <= i < |rest| :: rest[i].Valid())
      && (rest != [] ==> rest[|rest| - 1].Said?)
    }
  }

  function PrintInner(x: Inner, end: string): string {
    match x
    case Said(indent, text) => indent + (text + end)
    case Remark(line) => line
  }

  /** The lines of a quoted text after its first, without the closing quote. */
  function PrintOpen(rest: seq<Inner>): seq<string> {
    seq(|rest|, i requires 0 <= i < |rest| => PrintInner(rest[i], ""))
  }

  function FirstLine(b: Block, end: string): string {
    b.indent + ([b.opening] + (b.first + end))
  }

  /** Everything up to the opening line. */
  function PrintLead(b: Block): seq<string> {
    b.noise + [b.cue.Text()] + b.between
  }

  function PrintBlock(b: Block): seq<string> {
    if b.rest == [] then PrintLead(b) + [FirstLine(b, [b.closing])]
    else
      var last := |b.rest| - 1;
      PrintLead(b) + [FirstLine(b, "")] + PrintOpen(b.rest[..last]) + [PrintInner(b.rest[last], [b.closing])]
  }

  /** The block without its closing quote. */
  function PrintUnclosed(b: Block): seq<string> {
    PrintLead(b) + [FirstLine(b, "")] + PrintOpen(b.rest)
  }

  function Texts(rest: seq<Inner>): seq<string> {
    if rest == [] then [] else
      var before, last := Texts(rest[..|rest| - 1]), rest[|rest| - 1];
      if last.Said? then before + [last.text] else before
  }

  /** The spoken lines of an utterance, in order. */
  function Utterance(b: Block): seq<string> {
    [b.first] + Texts(b.rest)
  }

  /** The pieces with single spaces between them. */
  function Spaced(pieces: seq<string>): string {
    if pieces == [] then "" else if |pieces| == 1 then pieces[0] else pieces[0] + " " + Spaced(pieces[1..])
  }

  function Spoke(b: Block): string {
    "[" + b.cue.time + "] " + Spaced(Utterance(b))
  }

  lemma {:induction false} SpacedSnoc(pieces: seq<string>, last: string)
    requires pieces != []
    ensures Spaced(pieces + [last]) == Spaced(pieces) + " " + last
  {
    var all := pieces + [last];
    assert all[1..] == pieces[1..] + [last] && all[0] == pieces[0];
    if |pieces| == 1 {
      assert Spaced(all[1..]) == last;
    } else {
      SpacedSnoc(pieces[1..], last);
      assert pieces[0] + " " + (Spaced(pieces[1..]) + " " + last) == pieces[0] + " " + Spaced(pieces[1..]) + " " + last;
    }
  }

  function NonEmpty(pieces: seq<string>): seq<string> {
    if pieces == [] then [] else
      var before, last := NonEmpty(pieces[..|pieces| - 1]), pieces[|pieces| - 1];
      if last == "" then before else before + [last]
  }

  /** What was said is joined by single spaces, leaving out what is empty. */
  lemma {:induction false} JoinSpokenExactly(pieces: seq<string>)
    ensures JoinSpoken(pieces) == Spaced(NonEmpty(pieces))
    ensures JoinSpoken(pieces) == "" <==> NonEmpty(pieces) == []
  {
    if pieces != [] {
      var front, last := pieces[..|pieces| - 1], pieces[|pieces| - 1];
      JoinSpokenExactly(front);
      if last != "" && NonEmpty(front) != [] {
        SpacedSnoc(NonEmpty(front), last);
      } else if last != "" {
        assert NonEmpty(pieces) == [last];
      }
    }
  }

  lemma {:induction false} TextsSpoken(rest: seq<Inner>)
    requires forall i | 0 <= i < |rest| :: rest[i].Valid()
    ensures forall i | 0 <= i < |Texts(rest)| :: Texts(rest)[i] != ""
  {
    if rest != [] {
      TextsSpoken(rest[..|rest| - 1]);
      assert rest[|rest| - 1].Valid();
    }
  }

  lemma {:induction false} AllNonEmpty(pieces: seq<string>)
    requires forall i | 0 <= i < |pieces| :: pieces[i] != ""
    ensures NonEmpty(pieces) == pieces
  {
    if pieces != [] {
      AllNonEmpty(pieces[..|pieces| - 1]);
      assert pieces == pieces[..|pieces| - 1] + [pieces[|pieces| - 1]];
    }
  }

  lemma {:induction false} SpokeTagged(b: Block)
    requires b.Valid()
    ensures Spoke(b) == Tagged(b.cue.time, JoinSpoken(Utterance(b)))
  {
    TextsSpoken(b.rest);
    AllNonEmpty(Utterance(b));
    JoinSpokenExactly(Utterance(b));
  }

  lemma {:induction false} FeedAppend(s: State, a: seq<string>, b: seq<string>)
    ensures Feed(s, a + b) == Feed(Feed(s, a), b)
  {
    if b == [] {
      assert a + b == a;
    } else {
      assert (a + b)[..|a + b| - 1] == a + b[..|b| - 1];
      FeedAppend(s, a, b[..|b| - 1]);
    }
  }

  lemma {:induction false} FeedOne(s: State, line: string)
    ensures Feed(s, [line]) == Step(s, line)
  {
  }

  lemma {:induction false} FeedIgnored(s: State, lines: seq<string>)
    requires s.buf.None?
    requires forall i | 0 <= i < |lines| :: Cue(Strip(lines[i])) == None && (s.cue.None? || Opened(lines[i]) == None)
    ensures Feed(s, lines) == s
  {
    if lines != [] {
      FeedIgnored(s, lines[..|lines| - 1]);
    }
  }

  lemma {:induction false} FeedLead(out: seq<string>, b: Block)
    requires b.Valid()
    ensures Feed(State(out, None, None), PrintLead(b)) == State(out, Some(b.cue.time), None)
  {
    var s0, s1 := State(out, None, None), State(out, Some(b.cue.time), None);
    FeedAppend(s0, b.noise + [b.cue.Text()], b.between);
    FeedAppend(s0, b.noise, [b.cue.Text()]);
    FeedIgnored(s0, b.noise);
    FeedOne(s0, b.cue.Text());
    CueRead(b.cue);
    FeedIgnored(s1, b.between);
  }

  lemma {:induction false} EndTight(text: string, end: string)
    requires Spoken(text) && (end == "" || (|end| == 1 && end[0] in CLOSING))
    ensures Tight(text + end) && Unquoted(text + end) == text && (Closes(text + end) <==> end != "")
  {
  }

  lemma {:induction false} NoCue(s: string)
    requires s != [] && s[0] in OPENING
    ensures Cue(s) == None
  {
    assert !IsDigit(s[0]);
    assert TimeLength(s) == 0;
  }

  lemma {:induction false} OpenedQuote(line: string, s: string, body: string)
    requires LStrip(line, SPACES) == s && s != [] && s[0] in OPENING && s[1..] == body && Strip(body) == body
    ensures Opened(line) == Some(body)
  {
  }

  lemma {:induction false} QuotedLine(indent: string, opening: char, body: string)
    requires Blank(indent) && opening in OPENING && Tight(body)
    ensures Cue(Strip(indent + ([opening] + body))) == None && Opened(indent + ([opening] + body)) == Some(body)
  {
    var s := [opening] + body;
    NotSpace(opening);
    TightAfter(opening, body, s);
    StripTight(indent, s);
    NoCue(s);
    LStripBlank(indent, s);
    StripSelf(body);
    OpenedQuote(indent + s, s, body);
  }

  lemma {:induction false} TightAfter(c: char, body: string, s: string)
    requires c !in SPACES && Tight(body) && s == [c] + body
    ensures Tight(s) && s[1..] == body
  {
  }

  lemma {:induction false} StripSelf(body: string)
    requires Tight(body)
    ensures Strip(body) == body
  {
  }

  lemma {:induction false} StepOpens(s: State, line: string, body: string)
    requires s.buf.None? && s.cue.Some? && Cue(Strip(line)) == None && Opened(line) == Some(body)
    ensures Step(s, line) ==
            if Closes(body) then State(s.out + [Tagged(s.cue.value, Unquoted(body))], None, None)
            else s.(buf := Some([Unquoted(body)]))
  {
  }

  lemma {:induction false} FeedOpening(out: seq<string>, b: Block, end: string)
    requires b.Valid() && (end == "" || (|end| == 1 && end[0] in CLOSING))
    ensures Step(State(out, Some(b.cue.time), None), FirstLine(b, end)) ==
            if end == "" then State(out, Some(b.cue.time), Some([b.first]))
            else State(out + [Tagged(b.cue.time, b.first)], None, None)
  {
    EndTight(b.first, end);
    QuotedLine(b.indent, b.opening, b.first + end);
    StepOpens(State(out, Some(b.cue.time), None), FirstLine(b, end), b.first + end);
  }

  lemma {:induction false} StepContinues(s: State, line: string, stripped: string)
    requires s.buf.Some? && s.cue.Some? && Strip(line) == stripped && stripped != []
    ensures Step(s, line) ==
            if stripped[0] == REMARK then s
            else var buf := s.buf.value + [Unquoted(stripped)];
                 if Closes(stripped) then State(s.out + [Tagged(s.cue.value, JoinSpoken(buf))], None, None)
                 else s.(buf := Some(buf))
  {
  }

  lemma {:induction false} FeedInner(s: State, x: Inner, end: string)
    requires x.Valid() && s.cue.Some? && s.buf.Some?
    requires end == "" || (|end| == 1 && end[0] in CLOSING && x.Said?)
    ensures Step(s, PrintInner(x, end)) ==
            if x.Remark? then s
            else if end == "" then s.(buf := Some(s.buf.value + [x.text]))
            else State(s.out + [Tagged(s.cue.value, JoinSpoken(s.buf.value + [x.text]))], None, None)
  {
    if x.Said? {
      EndTight(x.text, end);
      StripTight(x.indent, x.text + end);
      assert (x.text + end)[0] == x.text[0];
      StepContinues(s, PrintInner(x, end), x.text + end);
    } else {
      StepContinues(s, x.line, Strip(x.line));
    }
  }

  lemma {:induction false} FeedThen(s0: State, lines: seq<string>, s1: State, end: string)
    requires Feed(s0, lines) == s1
    ensures Feed(s0, lines + [end]) == Step(s1, end)
  {
  }

  lemma {:induction false} OpenSnoc(rest: seq<Inner>)
    requires rest != []
    ensures var front, x := rest[..|rest| - 1], rest[|rest| - 1];
            && PrintOpen(rest) == PrintOpen(front) + [PrintInner(x, "")]
            && Texts(rest) == if x.Said? then Texts(front) + [x.text] else Texts(front)
  {
  }

  lemma {:induction false} FeedOpen(s: State, rest: seq<Inner>) returns (s': State)
    requires s.cue.Some? && s.buf.Some? && forall i | 0 <= i < |rest| :: rest[i].Valid()
    ensures s' == Feed(s, PrintOpen(rest)) && s' == s.(buf := Some(s.buf.value + Texts(rest)))
  {
    if rest == [] {
      s' := s;
      assert s.buf.value + [] == s.buf.value;
    } else {
      var front, x := rest[..|rest| - 1], rest[|rest| - 1];
      var s1 := FeedOpen(s, front);
      OpenSnoc(rest);
      FeedThen(s, PrintOpen(front), s1, PrintInner(x, ""));
      FeedInner(s1, x, "");
      s' := Step(s1, PrintInner(x, ""));
      BufSnoc(s.buf.value, Texts(front), x);
    }
  }

  lemma {:induction false} BufSnoc(buf: seq<string>, texts: seq<string>, x: Inner)
    ensures x.Said? ==> buf + texts + [x.text] == buf + (texts + [x.text])
  {
  }

  /** The start of a block, up to any point before its closing quote, only fills the buffer. */
  lemma {:induction false} FeedStarted(out: seq<string>, b: Block, rest: seq<Inner>)
    requires b.Valid() && forall i | 0 <= i < |rest| :: rest[i].Valid()
    ensures Feed(State(out, None, None), PrintLead(b) + [FirstLine(b, "")] + PrintOpen(rest)) ==
            State(out, Some(b.cue.time), Some([b.first] + Texts(rest)))
  {
    var s0 := State(out, None, None);
    FeedAppend(s0, PrintLead(b) + [FirstLine(b, "")], PrintOpen(rest));
    FeedAppend(s0, PrintLead(b), [FirstLine(b, "")]);
    FeedLead(out, b);
    FeedOne(State(out, Some(b.cue.time), None), FirstLine(b, ""));
    FeedOpening(out, b, "");
    var _ := FeedOpen(State(out, Some(b.cue.time), Some([b.first])), rest);
  }

  /** A closed block adds exactly its utterance. */
  lemma {:induction false} FeedBlock(out: seq<string>, b: Block)
    requires b.Valid()
    ensures Feed(State(out, None, None), PrintBlock(b)) == State(out + [Spoke(b)], None, None)
  {
    SpokeTagged(b);
    if b.rest == [] {
      FeedAppend(State(out, None, None), PrintLead(b), [FirstLine(b, [b.closing])]);
      FeedLead(out, b);
      FeedOne(State(out, Some(b.cue.time), None), FirstLine(b, [b.closing]));
      FeedOpening(out, b, [b.closing]);
      assert Utterance(b) == [b.first];
      JoinSpokenOne(b.first);
    } else {
      FeedLongBlock(out, b);
    }
  }

  lemma {:induction false} FeedLongBlock(out: seq<string>, b: Block)
    requires b.Valid() && b.rest != []
    ensures Feed(State(out, None, None), PrintBlock(b)) == State(out + [Spoke(b)], None, None)
  {
    var last := |b.rest| - 1;
    var before, x := b.rest[..last], b.rest[last];
    var s1 := State(out, Some(b.cue.time), Some([b.first] + Texts(before)));
    FeedStarted(out, b, before);
    FeedThen(State(out, None, None), PrintLead(b) + [FirstLine(b, "")] + PrintOpen(before), s1, PrintInner(x, [b.closing]));
    FeedLast(out, b, s1);
  }

  lemma {:induction false} FeedLast(out: seq<string>, b: Block, s: State)
    requires b.Valid() && b.rest != []
    requires s == State(out, Some(b.cue.time), Some([b.first] + Texts(b.rest[..|b.rest| - 1])))
    ensures Step(s, PrintInner(b.rest[|b.rest| - 1], [b.closing])) == State(out + [Spoke(b)], None, None)
  {
    var x := b.rest[|b.rest| - 1];
    FeedInner(s, x, [b.closing]);
    UtteranceEnds(b);
    SpokeTagged(b);
  }

  lemma {:induction false} UtteranceEnds(b: Block)
    requires b.rest != [] && b.rest[|b.rest| - 1].Said?
    ensures [b.first] + Texts(b.rest[..|b.rest| - 1]) + [b.rest[|b.rest| - 1].text] == Utterance(b)
  {
    OpenSnoc(b.rest);
    BufSnoc([b.first], Texts(b.rest[..|b.rest| - 1]), b.rest[|b.rest| - 1]);
  }

  lemma {:induction false} JoinSpokenOne(text: string)
    ensures JoinSpoken([text]) == text
  {
  }

  function PrintScript(blocks: seq<Block>): seq<string> {
    if blocks == [] then [] else PrintScript(blocks[..|blocks| - 1]) + PrintBlock(blocks[|blocks| - 1])
  }

  function SpokenLines(blocks: seq<Block>): seq<string> {
    if blocks == [] then [] else SpokenLines(blocks[..|blocks| - 1]) + [Spoke(blocks[|blocks| - 1])]
  }

  lemma {:induction false} FeedScript(blocks: seq<Block>)
    requires forall i | 0 <= i < |blocks| :: blocks[i].Valid()
    ensures Feed(START, PrintScript(blocks)) == State(SpokenLines(blocks), None, None)
    ensures |SpokenLines(blocks)| == |blocks|
  {
    if blocks != [] {
      var front, b := blocks[..|blocks| - 1], blocks[|blocks| - 1];
      FeedScript(front);
      FeedAppend(START, PrintScript(front), PrintBlock(b));
      FeedBlock(SpokenLines(front), b);
    }
  }

  /** How a script may end: with lines to be ignored, and possibly with a block whose quote is never closed. */
  datatype Ending = Ending(noise: seq<string>, unclosed: Option<Block>)
  {
    predicate Valid() {
      (forall i | 0 <= i < |noise| :: Cue(Strip(noise[i])) == None) && (unclosed.Some? ==> unclosed.value.Valid())
    }

    function Print(): seq<string> {
      noise + if unclosed.Some? then PrintUnclosed(unclosed.value) else []
    }
  }

  lemma {:induction false} FeedEnding(out: seq<string>, e: Ending)
    requires e.Valid()
    ensures Feed(State(out, None, None), e.Print()).out == out
  {
    var s := State(out, None, None);
    FeedIgnored(s, e.noise);
    if e.unclosed.Some? {
      FeedAppend(s, e.noise, PrintUnclosed(e.unclosed.value));
      FeedStarted(out, e.unclosed.value, e.unclosed.value.rest);
    } else {
      assert e.noise + [] == e.noise;
    }
  }

  /** Printing utterances as cue lines and quoted blocks, with anything ignorable around and remarks inside, and
      parsing the script in either line ending, gives back exactly the utterances in order, and their number. */
  lemma {:induction false} RoundTrip(blocks: seq<Block>, e: Ending)
    requires blocks != [] && e.Valid() && forall i | 0 <= i < |blocks| :: blocks[i].Valid()
    requires var lines := PrintScript(blocks) + e.Print(); AllFree(lines, '\n') && AllFree(lines, '\r')
    ensures var lines := PrintScript(blocks) + e.Print();
            && Parsed(JoinLines(lines, "\n")) == (JoinLines(SpokenLines(blocks), "\n"), |blocks|)
            && Parsed(JoinLines(lines, "\r\n")) == (JoinLines(SpokenLines(blocks), "\n"), |blocks|)
  {
    FeedScript(blocks);
    FeedEnding(SpokenLines(blocks), e);
    FeedAppend(START, PrintScript(blocks), e.Print());
    assert Feed(START, []) == START;
    LinesOfJoin(PrintScript(blocks) + e.Print());
  }

  // The count

  predicate OneLine(s: State) {
    && AllFree(s.out, '\n') && (s.cue.Some? ==> Free(s.cue.value, '\n'))
    && (s.buf.Some? ==> AllFree(s.buf.value, '\n'))
  }

  lemma {:induction false} SplitAllFree(s: string)
    ensures AllFree(Split(s), '\n')
  {
    if s != [] {
      SplitAllFree(s[..|s| - 1]);
    }
  }

  lemma {:induction false} JoinSpokenFree(pieces: seq<string>)
    requires AllFree(pieces, '\n')
    ensures Free(JoinSpoken(pieces), '\n')
  {
    if pieces != [] {
      JoinSpokenFree(pieces[..|pieces| - 1]);
    }
  }

  lemma {:induction false} OpenedFree(line: string)
    requires Free(line, '\n')
    ensures Opened(line).Some? ==> Free(Opened(line).value, '\n')
  {
  }

  lemma {:induction false} CueFree(line: string)
    requires Free(line, '\n')
    ensures Cue(line).Some? ==> Free(Cue(line).value, '\n')
  {
    CueIsFront(line);
  }

  lemma {:induction false} CueIsFront(line: string)
    ensures Cue(line).Some? ==> Cue(line).value <= line
  {
  }

  lemma {:induction false} TaggedFree(lines: seq<string>, time: string, text: string)
    requires AllFree(lines, '\n') && Free(time, '\n') && Free(text, '\n')
    ensures AllFree(lines + [Tagged(time, text)], '\n')
  {
  }

  lemma {:induction false} StepOn(s: State, line: string, stripped: string, buf: seq<string>)
    requires s.buf.Some? && stripped == Strip(line) && buf == s.buf.value + [Unquoted(stripped)]
    ensures Step(s, line) ==
            if stripped != [] && stripped[0] == REMARK then s
            else if Closes(stripped) then
              State(s.out + [Tagged(if s.cue.Some? then s.cue.value else "None", JoinSpoken(buf))], None, None)
            else s.(buf := Some(buf))
  {
  }

  lemma {:induction false} StripFree(s: string)
    requires Free(s, '\n')
    ensures Free(Strip(s), '\n') && Free(Unquoted(Strip(s)), '\n')
  {
    assert Free(LStrip(s, SPACES), '\n');
  }

  lemma {:induction false} ContinueOneLine(s: State, line: string)
    requires OneLine(s) && s.buf.Some? && Free(line, '\n')
    ensures OneLine(Step(s, line))
  {
    var stripped := Strip(line);
    var buf := s.buf.value + [Unquoted(stripped)];
    StripFree(line);
    assert AllFree(buf, '\n');
    JoinSpokenFree(buf);
    TaggedFree(s.out, if s.cue.Some? then s.cue.value else "None", JoinSpoken(buf));
    StepOn(s, line, stripped, buf);
  }

  lemma {:induction false} SpeechOneLine(s: State, line: string, body: string)
    requires OneLine(s) && s.buf.None? && s.cue.Some? && Cue(Strip(line)) == None && Opened(line) == Some(body)
    requires Free(body, '\n')
    ensures OneLine(Step(s, line))
  {
    StepOpens(s, line, body);
    assert Free(Unquoted(body), '\n');
    TaggedFree(s.out, s.cue.value, Unquoted(body));
  }

  lemma {:induction false} StepSilent(s: State, line: string)
    requires s.buf.None? && (Cue(Strip(line)).Some? || s.cue.None? || Opened(line).None?)
    ensures Step(s, line) == if Cue(Strip(line)).Some? then s.(cue := Cue(Strip(line))) else s
  {
  }

  lemma {:induction false} BeginOneLine(s: State, line: string)
    requires OneLine(s) && s.buf.None? && Free(line, '\n')
    ensures OneLine(Step(s, line))
  {
    assert Free(Strip(line), '\n');
    CueFree(Strip(line));
    OpenedFree(line);
    var cue, body := Cue(Strip(line)), Opened(line);
    if cue.None? && s.cue.Some? && body.Some? {
      SpeechOneLine(s, line, body.value);
    } else {
      StepSilent(s, line);
    }
  }

  lemma {:induction false} StepOneLine(s: State, line: string)
    requires OneLine(s) && Free(line, '\n')
    ensures OneLine(Step(s, line))
  {
    if s.buf.Some? {
      ContinueOneLine(s, line);
    } else {
      BeginOneLine(s, line);
    }
  }

  lemma {:induction false} FeedOneLine(lines: seq<string>)
    requires AllFree(lines, '\n')
    ensures OneLine(Feed(START, lines))
  {
    if lines != [] {
      FeedOneLine(lines[..|lines| - 1]);
      StepOneLine(Feed(START, lines[..|lines| - 1]), lines[|lines| - 1]);
    }
  }

  /** Whatever the text, a positive count is the number of lines of the result. */
  lemma {:induction false} CountIsLines(raw: string)
    requires Parsed(raw).1 > 0
    ensures |Split(Parsed(raw).0)| == Parsed(raw).1
  {
    SplitAllFree(Replace(raw, "\r\n", "\n"));
    FeedOneLine(Lines(raw));
    SplitJoin(Feed(START, Lines(raw)).out);
  }
}
