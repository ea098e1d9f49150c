/** Spoken lines extracted from a time-stamped script. */
module Transcript {
  import opened Strings

  const CLOSING: set<char> := {'"', '”'}
  const OPENING: set<char> := {'"', '“'}
  const DASHES: set<char> := {'–', '-', '~'}
  const REMARK := '※'

  // Lines

  function JoinLines(lines: seq<string>, eol: string): string {
    if lines == [] then "" else if |lines| == 1 then lines[0] else JoinLines(lines[..|lines| - 1], eol) + eol + lines[|lines| - 1]
  }

  /** Python's `s.split("\n")`. */
  function Split(s: string): (lines: seq<string>)
    ensures lines != []
  {
    if s == [] then [""]
    else
      var before, c := Split(s[..|s| - 1]), s[|s| - 1];
      var last := |before| - 1;
      if c == '\n' then before + [""] else before[..last] + [before[last] + [c]]
  }

  function Lines(raw: string): (lines: seq<string>)
    ensures lines != []
  {
    Split(Replace(raw, "\r\n", "\n"))
  }

  // Recognising cues and openings

  /** Length of the match of `\d{1,2}:\d{2}` at the start, or 0. */
  function TimeLength(s: string): (n: nat)
    ensures n <= |s|
  {
    if |s| >= 5 && IsDigit(s[0]) && IsDigit(s[1]) && s[2] == ':' && IsDigit(s[3]) && IsDigit(s[4]) then 5
    else if |s| >= 4 && IsDigit(s[0]) && s[1] == ':' && IsDigit(s[2]) && IsDigit(s[3]) then 4
    else 0
  }

  function DigitCount(s: string): (n: nat)
    ensures n <= |s| && AllDigits(s[..n]) && (n < |s| ==> !IsDigit(s[n]))
  {
    if s == [] || !IsDigit(s[0]) then 0 else
      var n := 1 + DigitCount(s[1..]);
      assert forall i | 0 < i < n :: s[..n][i] == s[1..][..n - 1][i - 1];
      n
  }

  /** `\[c\d+\]` at the start. */
  predicate HasMarker(s: string) {
    |s| >= 2 && s[0] == '[' && s[1] == 'c' &&
    var n := DigitCount(s[2..]);
    n > 0 && 2 + n < |s| && s[2 + n] == ']'
  }

  /** The starting time of a cue line, given without surrounding white space. */
  function Cue(s: string): Option<string> {
    var n := TimeLength(s);
    if n == 0 then None else
      var s1 := LStrip(s[n..], SPACES);
      if s1 == [] || s1[0] !in DASHES then None else
        var s2 := LStrip(s1[1..], SPACES);
        var m := TimeLength(s2);
        if m == 0 || m == |s2| || s2[m] !in SPACES then None
        else if HasMarker(LStrip(s2[m..], SPACES)) then Some(s[..n]) else None
  }

  /** What follows the opening quote of a line that starts with one. */
  function Opened(line: string): Option<string> {
    var s := LStrip(line, SPACES);
    if s != [] && s[0] in OPENING then Some(Strip(s[1..])) else None
  }

  predicate Closes(s: string) {
    s != [] && s[|s| - 1] in CLOSING
  }

  function Unquoted(s: string): string {
    RStrip(s, CLOSING)
  }

  function JoinSpoken(pieces: seq<string>): string {
    if pieces == [] then "" else
      var before, last := JoinSpoken(pieces[..|pieces| - 1]), pieces[|pieces| - 1];
      if last == "" then before else if before == "" then last else before + " " + last
  }

  // The parser

  datatype State = State(out: seq<string>, cue: Option<string>, buf: Option<seq<string>>)

  const START := State([], None, None)

  function Tagged(time: string, text: string): string {
    "[" + time + "] " + text
  }

  function Step(s: State, line: string): State {
    var stripped := Strip(line);
    if s.buf.Some? then
      if stripped != [] && stripped[0] == REMARK then s
      else
        var buf := s.buf.value + [Unquoted(stripped)];
        if Closes(stripped) then
          State(s.out + [Tagged(if s.cue.Some? then s.cue.value else "None", JoinSpoken(buf))], None, None)
        else s.(buf := Some(buf))
    else if Cue(stripped).Some? then s.(cue := Cue(stripped))
    else if s.cue.Some? && Opened(line).Some? then
      var body := Opened(line).value;
      if Closes(body) then State(s.out + [Tagged(s.cue.value, Unquoted(body))], None, None)
      else s.(buf := Some([Unquoted(body)]))
    else s
  }

  function Feed(s: State, lines: seq<string>): State {
    if lines == [] then s else Step(Feed(s, lines[..|lines| - 1]), lines[|lines| - 1])
  }

  /** The transcript and the number of utterances; a text that is no script comes back as it is. */
  function Parsed(raw: string): (string, nat) {
    var out := Feed(START, Lines(raw)).out;
    if out == [] then (Strip(raw), 0) else (JoinLines(out, "\n"), |out|)
  }

  method ReadLine(out: seq<string>, cue: Option<string>, buf: Option<seq<string>>, line: string)
    returns (out': seq<string>, cue': Option<string>, buf': Option<seq<string>>)
    requires buf.Some? ==> cue.Some?
    ensures State(out', cue', buf') == Step(State(out, cue, buf), line) && (buf'.Some? ==> cue'.Some?)
  {
    out', cue', buf' := out, cue, buf;
    var stripped := Strip(line);
    if buf.Some? {
      if stripped == [] || stripped[0] != REMARK {
        var spoken := buf.value + [Unquoted(stripped)];
        if Closes(stripped) {
          out' := out + [Tagged(cue.value, JoinSpoken(spoken))];
          cue', buf' := None, None;
        } else {
          buf' := Some(spoken);
        }
      }
    } else {
      var time := Cue(stripped);
      if time.Some? {
        cue' := time;
      } else if cue.Some? {
        var body := Opened(line);
        if body.Some? {
          if Closes(body.value) {
            out' := out + [Tagged(cue.value, Unquoted(body.value))];
            cue', buf' := None, None;
          } else {
            buf' := Some([Unquoted(body.value)]);
          }
        }
      }
    }
  }

  lemma {:induction false} FeedNext(lines: seq<string>, i: nat)
    requires i < |lines|
    ensures Feed(START, lines[..i + 1]) == Step(Feed(START, lines[..i]), lines[i])
  {
    assert lines[..i + 1][..i] == lines[..i];
  }

  method ParseScript(raw: string) returns (text: string, count: nat)
    ensures (text, count) == Parsed(raw)
  {
    var lines := Lines(raw);
    var out, cue, buf := [], None, None;
    for i := 0 to |lines|
      invariant State(out, cue, buf) == Feed(START, lines[..i])
      invariant buf.Some? ==> cue.Some?
    {
      out, cue, buf := ReadLine(out, cue, buf, lines[i]);
      FeedNext(lines, i);
    }
    assert lines[..|lines|] == lines;
    if out == [] {
      text, count := Strip(raw), 0;
    } else {
      text, count := JoinLines(out, "\n"), |out|;
    }
  }
}
