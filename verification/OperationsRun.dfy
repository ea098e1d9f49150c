/** The frozen question set run turn by turn over HTTP, with its early stops. */
module OperationsRun {
  import opened Strings

  /** A scripted turn: a question, or an option the previous answer must have offered. */
  datatype Turn = Turn(option: Option<string>, aliases: seq<string>, question: string)

  datatype Case = Case(id: string, turns: seq<Turn>)

  datatype Response = Response(
    status: int, action: string, slot: string, context: string, revision: Option<int>, options: seq<string>)

  datatype Row = Row(number: nat, question: string, response: Response)

  datatype Record = Record(caseId: string, turns: seq<Row>, choiceMissing: bool)

  /** What the server answers to a turn of a case; any answers at all. */
  type Server = (nat, nat) -> Response

  function Matching(options: seq<string>, wanted: seq<string>): seq<string> {
    if options == [] then [] else
      var rest := Matching(options[1..], wanted);
      if options[0] in wanted then [options[0]] + rest else rest
  }

  /** The one offered option that the script names, if the previous answer asks for a case and offers exactly one. */
  function OfferedChoice(previous: Option<Response>, option: string, aliases: seq<string>): Option<string> {
    if previous.None? || previous.value.status != 200 then None else
      var r := previous.value;
      if r.action != "CLARIFY" || r.slot != "case" || r.context == "" || r.revision.None? || r.revision.value < 1 then None else
        var matches := Matching(r.options, [option] + aliases);
        if |matches| == 1 then Some(matches[0]) else None
  }

  /** The question to ask next, unless the scripted choice was not offered. */
  function Question(t: Turn, asked: seq<Row>): Option<string> {
    if t.option.Some? && t.option.value != "" then
      OfferedChoice(if asked == [] then None else Some(asked[|asked| - 1].response), t.option.value, t.aliases)
    else Some(t.question)
  }

  predicate ValidTurn(t: Turn) {
    && |t.aliases| <= 10
    && (forall i | 0 <= i < |t.aliases| :: Strip(t.aliases[i]) != "" && |t.aliases[i]| <= 1000)
    && (forall i, j | 0 <= i < j < |t.aliases| :: t.aliases[i] != t.aliases[j])
    && (t.aliases != [] ==> t.option.Some? && t.option.value != "")
    && (t.option.Some? ==> Strip(t.option.value) != "" && t.option.value !in t.aliases)
  }

  predicate ValidCase(c: Case) {
    forall j | 0 <= j < |c.turns| :: ValidTurn(c.turns[j])
  }

  predicate ValidScripts(cases: seq<Case>) {
    forall i | 0 <= i < |cases| :: ValidCase(cases[i])
  }

  /** Where a case stands: the rows asked, the consecutive errors so far, and whether it has to end. */
  datatype Progress = Progress(rows: seq<Row>, errors: nat, missing: bool, stopped: bool)

  function AskTurn(p: Progress, t: Turn, r: Response, limit: nat): Progress {
    match Question(t, p.rows)
    case None => p.(missing := true)
    case Some(q) =>
      var errors := if r.status != 200 then p.errors + 1 else 0;
      Progress(p.rows + [Row(|p.rows| + 1, q, r)], errors, false, limit > 0 && errors >= limit)
  }

  /** The first `n` turns of case `ci`, entered with `errors` consecutive errors behind it. */
  function RunTurns(turns: seq<Turn>, server: Server, ci: nat, limit: nat, errors: nat, n: nat): Progress
    requires n <= |turns|
  {
    if n == 0 then Progress([], errors, false, false) else
      var p := RunTurns(turns, server, ci, limit, errors, n - 1);
      if p.missing || p.stopped then p else AskTurn(p, turns[n - 1], server(ci, n - 1), limit)
  }

  datatype RunState = RunState(records: seq<Record>, errors: nat, stopped: bool)

  function RunCase(s: RunState, c: Case, server: Server, ci: nat, limit: nat): RunState {
    var p := RunTurns(c.turns, server, ci, limit, s.errors, |c.turns|);
    RunState(s.records + [Record(c.id, p.rows, p.missing)], p.errors, p.stopped)
  }

  function RunCases(cases: seq<Case>, server: Server, limit: nat, m: nat): RunState
    requires m <= |cases|
  {
    if m == 0 then RunState([], 0, false) else
      var s := RunCases(cases, server, limit, m - 1);
      if s.stopped then s else RunCase(s, cases[m - 1], server, m - 1, limit)
  }

  datatype Stop = Completed | ControlFailed | ConsecutiveErrors(count: nat)

  datatype Collected = InvalidScripts | Collected(records: seq<Record>, stop: Stop)

  function StopOf(s: RunState): Stop {
    if s.stopped then ConsecutiveErrors(s.errors) else Completed
  }

  method CollectCase(c: Case, server: Server, ci: nat, limit: nat, errors: nat) returns (p: Progress)
    ensures p == RunTurns(c.turns, server, ci, limit, errors, |c.turns|)
  {
    var turns: seq<Row>, consecutive: nat, missing, stopped := [], errors, false, false;
    var n := 0;
    while n < |c.turns|
      invariant n <= |c.turns|
      invariant Progress(turns, consecutive, missing, stopped) == RunTurns(c.turns, server, ci, limit, errors, n)
      invariant |turns| <= n && (!missing && !stopped ==> |turns| == n)
    {
      if missing || stopped {
        break;
      }
      var expected := c.turns[n];
      var question := Question(expected, turns);
      n := n + 1;
      if question.None? {
        missing := true;
      } else {
        var response := server(ci, n - 1);
        turns := turns + [Row(n, question.value, response)];
        consecutive := if response.status != 200 then consecutive + 1 else 0;
        stopped := limit > 0 && consecutive >= limit;
      }
    }
    p := Progress(turns, consecutive, missing, stopped);
    EndedCaseStays(c.turns, server, ci, limit, errors, n, |c.turns|);
  }

  lemma {:induction false} EndedCaseStays(
    turns: seq<Turn>, server: Server, ci: nat, limit: nat, errors: nat, n: nat, n': nat)
    requires n <= n' <= |turns|
    requires var p := RunTurns(turns, server, ci, limit, errors, n); n == n' || p.missing || p.stopped
    ensures RunTurns(turns, server, ci, limit, errors, n') == RunTurns(turns, server, ci, limit, errors, n)
  {
    if n < n' {
      EndedCaseStays(turns, server, ci, limit, errors, n, n' - 1);
    }
  }

  lemma {:induction false} EndedRunStays(cases: seq<Case>, server: Server, limit: nat, m: nat, m': nat)
    requires m <= m' <= |cases| && (m == m' || RunCases(cases, server, limit, m).stopped)
    ensures RunCases(cases, server, limit, m') == RunCases(cases, server, limit, m)
  {
    if m < m' {
      EndedRunStays(cases, server, limit, m, m' - 1);
    }
  }

  /** The whole run: nothing is asked when a script is invalid or a control fails. */
  method Collect(cases: seq<Case>, server: Server, controls: seq<bool>, limit: nat) returns (out: Collected)
    ensures out == if !ValidScripts(cases) then InvalidScripts
                   else if controls == [] || false in controls then Collected([], ControlFailed)
                   else var s := RunCases(cases, server, limit, |cases|); Collected(s.records, StopOf(s))
  {
    if !ValidScripts(cases) {
      return InvalidScripts;
    }
    if controls == [] || false in controls {
      return Collected([], ControlFailed);
    }
    var recorded, consecutive, stopped := [], 0, false;
    var m := 0;
    while m < |cases| && !stopped
      invariant m <= |cases|
      invariant RunState(recorded, consecutive, stopped) == RunCases(cases, server, limit, m)
    {
      var p := CollectCase(cases[m], server, m, limit, consecutive);
      recorded := recorded + [Record(cases[m].id, p.rows, p.missing)];
      consecutive, stopped := p.errors, p.stopped;
      m := m + 1;
    }
    EndedRunStays(cases, server, limit, m, |cases|);
    out := Collected(recorded, StopOf(RunState(recorded, consecutive, stopped)));
  }

  // Which scripts are valid

  /** The text has a character that is not white space. */
  predicate Inked(s: string) {
    exists i | 0 <= i < |s| :: s[i] !in SPACES
  }

  lemma {:induction false} StripInked(s: string)
    ensures Strip(s) != "" <==> Inked(s)
  {
    InkKept(s, SPACES);
  }

  lemma {:induction false} InkKept(s: string, chars: set<char>)
    ensures RStrip(LStrip(s, chars), chars) != "" <==> exists i | 0 <= i < |s| :: s[i] !in chars
  {
    var l := LStrip(s, chars);
    if RStrip(l, chars) != "" {
      assert s[|s| - |l|] == l[0];
    } else {
      forall i | 0 <= i < |s|
        ensures s[i] in chars
      {
        assert i >= |s| - |l| ==> s[i] == l[i - (|s| - |l|)];
      }
    }
  }

  lemma {:induction false} DistinctSize(s: seq<string>)
    ensures (forall i, j | 0 <= i < j < |s| :: s[i] != s[j]) <==> |set a | a in s| == |s|
    ensures |set a | a in s| <= |s|
  {
    if s != [] {
      var front, last := s[..|s| - 1], s[|s| - 1];
      DistinctSize(front);
      var before := set a | a in front;
      assert (set a | a in s) == before + {last};
      assert last in front <==> exists i | 0 <= i < |front| :: s[i] == last;
    } else {
      assert (set a | a in s) == {};
    }
  }

  /** A turn is valid if and only if it has at most ten aliases, no two alike, each inked and of at most 1000 characters,
      and none without a scripted option; and an option is inked and not among them. */
  lemma {:induction false} ValidTurnExactly(t: Turn)
    ensures ValidTurn(t) <==>
            && |t.aliases| <= 10 && |set a | a in t.aliases| == |t.aliases|
            && (forall a | a in t.aliases :: Inked(a) && |a| <= 1000)
            && (match t.option
                case None => t.aliases == []
                case Some(option) => Inked(option) && option !in t.aliases)
  {
    DistinctSize(t.aliases);
    AliasesInked(t.aliases);
    OptionInked(t.option, t.aliases);
  }

  lemma {:induction false} OptionInked(scripted: Option<string>, aliases: seq<string>)
    ensures (aliases != [] ==> scripted.Some? && scripted.value != "")
            && (scripted.Some? ==> Strip(scripted.value) != "" && scripted.value !in aliases) <==>
            match scripted
            case None => aliases == []
            case Some(option) => Inked(option) && option !in aliases
  {
    if scripted.Some? {
      StripInked(scripted.value);
    }
  }

  lemma {:induction false} AliasesInked(aliases: seq<string>)
    ensures (forall a | a in aliases :: Inked(a) && |a| <= 1000) <==>
            forall i | 0 <= i < |aliases| :: Strip(aliases[i]) != "" && |aliases[i]| <= 1000
  {
    forall a {
      StripInked(a);
    }
  }

  /** Scripts are valid if and only if every turn of every case is. */
  lemma {:induction false} ValidScriptsExactly(cases: seq<Case>)
    ensures ValidScripts(cases) <==> forall c | c in cases :: forall t | t in c.turns :: ValidTurn(t)
  {
    forall c: Case
      ensures ValidCase(c) <==> forall t | t in c.turns :: ValidTurn(t)
    {
      TurnsValid(c);
    }
    if forall c | c in cases :: ValidCase(c) {
      forall i | 0 <= i < |cases|
        ensures ValidCase(cases[i])
      {
        assert cases[i] in cases;
      }
    }
    assert ValidScripts(cases) <==> forall i | 0 <= i < |cases| :: ValidCase(cases[i]);
  }

  lemma {:induction false} TurnsValid(c: Case)
    ensures ValidCase(c) <==> forall t | t in c.turns :: ValidTurn(t)
  {
    if forall t | t in c.turns :: ValidTurn(t) {
      forall j | 0 <= j < |c.turns|
        ensures ValidTurn(c.turns[j])
      {
        assert c.turns[j] in c.turns;
      }
    }
  }

  // What is asked

  /** The answer is a 200 that asks for a case, in a context and at a revision from 1 on. */
  predicate AsksForCase(r: Response) {
    && r.status == 200 && r.action == "CLARIFY" && r.slot == "case" && r.context != ""
    && r.revision.Some? && r.revision.value >= 1
  }

  /** The script names this option, itself or by an alias. */
  predicate Named(t: Turn, option: string) {
    t.option == Some(option) || option in t.aliases
  }

  /** Position `i` holds this option, which the script names, and no other position holds one that it names. */
  ghost predicate OfferedAt(options: seq<string>, t: Turn, v: string, i: int) {
    0 <= i < |options| && options[i] == v && Named(t, v) && forall j | 0 <= j < |options| && j != i :: !Named(t, options[j])
  }

  /** The answer asks for a case and offers exactly one option that the script names: this one. */
  ghost predicate Offers(r: Response, t: Turn, v: string) {
    AsksForCase(r) && exists i :: OfferedAt(r.options, t, v, i)
  }

  lemma {:induction false} NoneMatching(options: seq<string>, wanted: seq<string>)
    ensures Matching(options, wanted) == [] <==> forall j | 0 <= j < |options| :: options[j] !in wanted
  {
    if options != [] {
      NoneMatching(options[1..], wanted);
      assert forall j | 0 < j < |options| :: options[1..][j - 1] == options[j];
    }
  }

  /** Position `i`, and no other, holds an option wanted, which is `v`. */
  ghost predicate OnlyAt(options: seq<string>, wanted: seq<string>, v: string, i: int) {
    0 <= i < |options| && options[i] == v && v in wanted && forall j | 0 <= j < |options| && j != i :: options[j] !in wanted
  }

  lemma {:induction false} OneMatchingFirst(options: seq<string>, wanted: seq<string>, v: string)
    requires options != [] && options[0] in wanted
    ensures Matching(options, wanted) == [v] <==> exists i :: OnlyAt(options, wanted, v, i)
  {
    var rest := options[1..];
    NoneMatching(rest, wanted);
    assert forall j | 0 < j < |options| :: rest[j - 1] == options[j];
    var more := Matching(rest, wanted);
    assert Matching(options, wanted) == [options[0]] + more;
    assert |[options[0]] + more| == 1 + |more| && ([options[0]] + more)[0] == options[0];
    if more == [] && options[0] == v {
      assert OnlyAt(options, wanted, v, 0);
    }
    forall i | OnlyAt(options, wanted, v, i)
      ensures i == 0 && more == []
    {
    }
  }

  lemma {:induction false} OneMatchingLater(options: seq<string>, wanted: seq<string>, v: string)
    requires options != [] && options[0] !in wanted
    ensures (exists i :: OnlyAt(options, wanted, v, i)) <==> exists i :: OnlyAt(options[1..], wanted, v, i)
  {
    var rest := options[1..];
    assert forall j | 0 < j < |options| :: rest[j - 1] == options[j];
    if i :| OnlyAt(options, wanted, v, i) {
      assert OnlyAt(rest, wanted, v, i - 1);
    }
    if i :| OnlyAt(rest, wanted, v, i) {
      assert OnlyAt(options, wanted, v, i + 1);
    }
  }

  /** Exactly one option matches if and only if one position holds a wanted option and no other does. */
  lemma {:induction false} OneMatching(options: seq<string>, wanted: seq<string>, v: string)
    ensures Matching(options, wanted) == [v] <==> exists i :: OnlyAt(options, wanted, v, i)
  {
    if options != [] {
      if options[0] in wanted {
        OneMatchingFirst(options, wanted, v);
      } else {
        OneMatching(options[1..], wanted, v);
        OneMatchingLater(options, wanted, v);
      }
    }
  }

  lemma {:induction false} OfferedExactly(previous: Response, t: Turn, v: string)
    requires t.option.Some?
    ensures OfferedChoice(Some(previous), t.option.value, t.aliases) == Some(v) <==> Offers(previous, t, v)
  {
    var wanted := [t.option.value] + t.aliases;
    assert forall o :: o in wanted <==> Named(t, o);
    OneMatching(previous.options, wanted, v);
    if OnlyOne(previous.options, wanted) {
      OneMatching(previous.options, wanted, Matching(previous.options, wanted)[0]);
    }
    forall i
      ensures OnlyAt(previous.options, wanted, v, i) <==> OfferedAt(previous.options, t, v, i)
    {
    }
  }

  predicate OnlyOne(options: seq<string>, wanted: seq<string>) {
    |Matching(options, wanted)| == 1
  }

  /** What a turn asks after these rows: a scripted choice the one option offered for it, any other turn its question. */
  ghost predicate AsksAs(t: Turn, asked: seq<Row>, q: string) {
    if t.option.Some? && t.option.value != "" then asked != [] && Offers(asked[|asked| - 1].response, t, q)
    else q == t.question
  }

  /** Nothing can be asked: the turn is a scripted choice, and no option is offered for it. */
  ghost predicate NothingOffered(t: Turn, asked: seq<Row>) {
    forall q :: !AsksAs(t, asked, q)
  }

  lemma {:induction false} QuestionExactly(t: Turn, asked: seq<Row>)
    ensures forall q :: Question(t, asked) == Some(q) <==> AsksAs(t, asked, q)
    ensures Question(t, asked) == None <==> NothingOffered(t, asked)
  {
    if t.option.Some? && t.option.value != "" {
      if asked != [] {
        var r := asked[|asked| - 1].response;
        forall v {
          OfferedExactly(r, t, v);
        }
      }
    } else {
      assert AsksAs(t, asked, t.question);
    }
  }

  // What the run guarantees

  function AllRows(records: seq<Record>): seq<Row> {
    if records == [] then [] else AllRows(records[..|records| - 1]) + records[|records| - 1].turns
  }

  /** The number of failed responses at the end of the rows. */
  function Trailing(rows: seq<Row>): nat {
    if rows == [] || rows[|rows| - 1].response.status == 200 then 0 else 1 + Trailing(rows[..|rows| - 1])
  }

  /** The rows of a case are the first of its turns, in order, each asked as scripted and answered by the server. */
  ghost predicate Asked(c: Case, server: Server, ci: nat, rows: seq<Row>) {
    && |rows| <= |c.turns|
    && forall i | 0 <= i < |rows| ::
         AsksAs(c.turns[i], rows[..i], rows[i].question) && rows[i] == Row(i + 1, rows[i].question, server(ci, i))
  }

  lemma {:induction false} AskedGrows(c: Case, server: Server, ci: nat, rows: seq<Row>, q: string)
    requires Asked(c, server, ci, rows) && |rows| < |c.turns| && AsksAs(c.turns[|rows|], rows, q)
    ensures Asked(c, server, ci, rows + [Row(|rows| + 1, q, server(ci, |rows|))])
  {
  }

  /** The rows follow the script, one per turn, until a choice is missing or the run stops. */
  ghost predicate OnScript(c: Case, server: Server, ci: nat, n: nat, p: Progress) {
    && Asked(c, server, ci, p.rows) && |p.rows| <= n <= |c.turns|
    && (!p.missing && !p.stopped ==> |p.rows| == n)
    && (p.missing ==> |p.rows| < n && NothingOffered(c.turns[|p.rows|], p.rows) && !p.stopped)
  }

  lemma {:induction false} AskOnScript(
    c: Case, server: Server, ci: nat, n: nat, p: Progress, limit: nat) returns (p': Progress)
    requires OnScript(c, server, ci, n, p) && n < |c.turns|
    ensures p' == (if p.missing || p.stopped then p else AskTurn(p, c.turns[n], server(ci, n), limit))
    ensures OnScript(c, server, ci, n + 1, p')
  {
    if p.missing || p.stopped {
      p' := p;
    } else {
      p' := AskTurn(p, c.turns[n], server(ci, n), limit);
      QuestionExactly(c.turns[n], p.rows);
      if Question(c.turns[n], p.rows).Some? {
        AskedGrows(c, server, ci, p.rows, Question(c.turns[n], p.rows).value);
      }
    }
  }

  lemma {:induction false} RowsAsked(
    c: Case, server: Server, ci: nat, limit: nat, errors: nat, n: nat) returns (p: Progress)
    requires n <= |c.turns|
    ensures p == RunTurns(c.turns, server, ci, limit, errors, n) && OnScript(c, server, ci, n, p)
  {
    p := Progress([], errors, false, false);
    for i := 0 to n
      invariant p == RunTurns(c.turns, server, ci, limit, errors, i) && OnScript(c, server, ci, i, p)
    {
      p := AskOnScript(c, server, ci, i, p, limit);
    }
  }

  /** The counter is the length of the current streak of failures, across cases; it stays below the limit until it reaches it. */
  ghost predicate Streak(rows: seq<Row>, errors: nat, stopped: bool, limit: nat) {
    && errors == Trailing(rows)
    && (stopped <==> limit > 0 && errors >= limit)
    && (limit > 0 ==> forall q | 0 <= q < |rows| :: Trailing(rows[..q]) < limit)
  }

  lemma {:induction false} AskStreak(
    before: seq<Row>, p: Progress, t: Turn, r: Response, limit: nat) returns (p': Progress)
    requires Streak(before + p.rows, p.errors, false, limit) && !p.stopped
    ensures p' == AskTurn(p, t, r, limit) && Streak(before + p'.rows, p'.errors, p'.stopped, limit)
  {
    p' := AskTurn(p, t, r, limit);
    if Question(t, p.rows).Some? {
      var row := Row(|p.rows| + 1, Question(t, p.rows).value, r);
      StreakGrows(before + p.rows, p.errors, limit, row, before + (p.rows + [row]));
    }
  }

  lemma {:induction false} TurnsStreak(
    before: seq<Row>, c: Case, server: Server, ci: nat, limit: nat, errors: nat, n: nat) returns (p: Progress)
    requires n <= |c.turns| && Streak(before, errors, false, limit)
    ensures p == RunTurns(c.turns, server, ci, limit, errors, n) && Streak(before + p.rows, p.errors, p.stopped, limit)
  {
    p := Progress([], errors, false, false);
    assert before + [] == before;
    for i := 0 to n
      invariant p == RunTurns(c.turns, server, ci, limit, errors, i) && Streak(before + p.rows, p.errors, p.stopped, limit)
    {
      if !p.missing && !p.stopped {
        p := AskStreak(before, p, c.turns[i], server(ci, i), limit);
      }
    }
  }

  lemma {:induction false} StreakGrows(rows: seq<Row>, errors: nat, limit: nat, row: Row, rows': seq<Row>)
    requires Streak(rows, errors, false, limit) && rows' == rows + [row]
    ensures var errors' := if row.response.status != 200 then errors + 1 else 0;
            Streak(rows', errors', limit > 0 && errors' >= limit, limit)
  {
    assert rows'[..|rows|] == rows;
    assert forall q | 0 <= q < |rows| :: rows'[..q] == rows[..q];
  }

  /** A record holds the first turns of its case, and claims a missing choice only where one was missing. */
  ghost predicate Faithful(r: Record, c: Case, server: Server, ci: nat) {
    && r.caseId == c.id && Asked(c, server, ci, r.turns)
    && (r.choiceMissing ==> |r.turns| < |c.turns| && NothingOffered(c.turns[|r.turns|], r.turns))
  }

  /** The records of a run: the first cases in order, each with its first turns. */
  ghost predicate RecordsCases(records: seq<Record>, cases: seq<Case>, server: Server) {
    |records| <= |cases| && forall i | 0 <= i < |records| :: Faithful(records[i], cases[i], server, i)
  }

  ghost predicate Whole(r: Record, c: Case) {
    |r.turns| >= |c.turns| || r.choiceMissing
  }

  /** Every recorded case is whole, except perhaps the last one of a stopped run. */
  ghost predicate WholeUnlessStopped(records: seq<Record>, cases: seq<Case>, stopped: bool)
    requires |records| <= |cases|
  {
    forall i | 0 <= i < |records| && (!stopped || i < |records| - 1) :: Whole(records[i], cases[i])
  }

  /** The run records a prefix of the cases and of every case's turns; unless it stops, every case is recorded,
      and a case falls short of its script only where a scripted choice was not offered, or where the run stopped. */
  lemma {:induction false} RunIsPrefix(cases: seq<Case>, server: Server, limit: nat, m: nat)
    requires m <= |cases|
    ensures var s := RunCases(cases, server, limit, m);
            && RecordsCases(s.records, cases, server) && |s.records| <= m && (!s.stopped ==> |s.records| == m)
            && WholeUnlessStopped(s.records, cases, s.stopped)
  {
    if m > 0 {
      RunIsPrefix(cases, server, limit, m - 1);
      var s := RunCases(cases, server, limit, m - 1);
      if !s.stopped {
        var _ := CaseIsPrefix(cases, server, limit, s, m - 1);
      }
    }
  }

  lemma {:induction false} RecordsSnoc(records: seq<Record>, r: Record, cases: seq<Case>, server: Server)
    requires RecordsCases(records, cases, server) && |records| < |cases|
    requires Faithful(r, cases[|records|], server, |records|)
    ensures RecordsCases(records + [r], cases, server)
  {
    forall i | 0 <= i < |records| + 1
      ensures Faithful((records + [r])[i], cases[i], server, i)
    {
      if i < |records| {
        assert (records + [r])[i] == records[i];
      }
    }
  }

  lemma {:induction false} WholeSnoc(records: seq<Record>, r: Record, cases: seq<Case>, stopped: bool)
    requires |records| < |cases| && WholeUnlessStopped(records, cases, false)
    requires stopped || Whole(r, cases[|records|])
    ensures WholeUnlessStopped(records + [r], cases, stopped)
  {
  }

  lemma {:induction false} CaseIsPrefix(cases: seq<Case>, server: Server, limit: nat, s: RunState, m: nat)
    returns (s': RunState)
    requires m == |s.records| < |cases| && !s.stopped
    requires RecordsCases(s.records, cases, server) && WholeUnlessStopped(s.records, cases, false)
    ensures s' == RunCase(s, cases[m], server, m, limit) && |s'.records| == m + 1
    ensures RecordsCases(s'.records, cases, server) && WholeUnlessStopped(s'.records, cases, s'.stopped)
  {
    var c := cases[m];
    var p := RowsAsked(c, server, m, limit, s.errors, |c.turns|);
    var r := Record(c.id, p.rows, p.missing);
    s' := RunState(s.records + [r], p.errors, p.stopped);
    RecordsSnoc(s.records, r, cases, server);
    WholeSnoc(s.records, r, cases, p.stopped);
  }

  lemma {:induction false} AllRowsSnoc(records: seq<Record>, r: Record)
    ensures AllRows(records + [r]) == AllRows(records) + r.turns
  {
    assert (records + [r])[..|records|] == records;
  }

  lemma {:induction false} CaseStreak(s: RunState, c: Case, server: Server, ci: nat, limit: nat) returns (s': RunState)
    requires Streak(AllRows(s.records), s.errors, false, limit)
    ensures s' == RunCase(s, c, server, ci, limit) && Streak(AllRows(s'.records), s'.errors, s'.stopped, limit)
  {
    var p := TurnsStreak(AllRows(s.records), c, server, ci, limit, s.errors, |c.turns|);
    AllRowsSnoc(s.records, Record(c.id, p.rows, p.missing));
    s' := RunState(s.records + [Record(c.id, p.rows, p.missing)], p.errors, p.stopped);
  }

  lemma {:induction false} RunStreak(cases: seq<Case>, server: Server, limit: nat, m: nat) returns (s: RunState)
    requires m <= |cases|
    ensures s == RunCases(cases, server, limit, m) && Streak(AllRows(s.records), s.errors, s.stopped, limit)
  {
    if m == 0 {
      s := RunState([], 0, false);
    } else {
      s := RunStreak(cases, server, limit, m - 1);
      if !s.stopped {
        s := CaseStreak(s, cases[m - 1], server, m - 1, limit);
      }
    }
  }

  /** The run stops exactly at the first window of `limit` consecutive failures, counted across cases. */
  lemma {:induction false} StopsAtFirstWindow(cases: seq<Case>, server: Server, limit: nat)
    ensures var s := RunCases(cases, server, limit, |cases|);
            var rows := AllRows(s.records);
            && (s.stopped <==> limit > 0 && Trailing(rows) == limit)
            && (limit > 0 ==> forall q | 0 <= q < |rows| :: Trailing(rows[..q]) < limit)
            && (s.stopped ==> StopOf(s) == ConsecutiveErrors(limit))
  {
    var s := RunStreak(cases, server, limit, |cases|);
    var rows := AllRows(s.records);
    if s.stopped {
      assert rows != [];
      assert Trailing(rows) <= 1 + Trailing(rows[..|rows| - 1]);
    }
  }
}
