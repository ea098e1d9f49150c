/** Human review decisions as an append-only log: one immutable file per revision, published by an atomic link. */
module ReviewLog {
  import opened Strings

  datatype Decision = Decision(meaning: string, body: string)

  datatype Event = Event(request: string, bodyHash: string, previous: string, revision: int, at: string, decision: Decision)

  datatype Payload = Payload(revision: int, events: seq<Event>, decisions: map<string, string>)

  /** A payload sealed with its hash. */
  datatype Intake = Intake(payload: Payload, hash: string)

  datatype Outcome = Accepted(intake: Intake) | Refused

  const MAX_READABLE := 10000

  /** One review queue: the selected questions, and the hash functions in use. */
  datatype Queue = Queue(selected: set<string>, ofPayload: Payload -> string, ofDecision: Decision -> string)
  {
    function Sealed(p: Payload): Intake {
      Intake(p, ofPayload(p))
    }

    function Start(): Intake {
      Sealed(Payload(0, [], map[]))
    }

    function Extend(i: Intake, e: Event): Intake {
      var p := i.payload;
      Sealed(Payload(p.revision + 1, p.events + [e], p.decisions[e.decision.meaning := e.decision.body]))
    }

    /** The event records one more decision on a selected question, on top of exactly this history. */
    predicate Follows(i: Intake, e: Event) {
      && e.previous == i.hash && e.revision == i.payload.revision + 1
      && e.bodyHash == ofDecision(e.decision)
      && (forall j | 0 <= j < |i.payload.events| :: i.payload.events[j].request != e.request)
      && e.decision.meaning in selected
    }

    /** The intake that the events lead to from the start, if each follows from the ones before it. */
    function Replay(events: seq<Event>): Option<Intake> {
      if events == [] then Some(Start()) else
        var before, e := Replay(events[..|events| - 1]), events[|events| - 1];
        if before.Some? && Follows(before.value, e) then Some(Extend(before.value, e)) else None
    }

    predicate Checked(i: Intake) {
      var p := i.payload;
      && i == Sealed(p)
      && p.decisions.Keys <= selected
      && 0 <= p.revision <= MAX_READABLE && |p.events| == p.revision
      && Replay(p.events) == Some(i)
    }

    /** Position of the event with this request key, or the length. */
    function Filed(events: seq<Event>, request: string): (j: nat)
      ensures j <= |events| && (j < |events| ==> events[j].request == request)
      ensures forall k | 0 <= k < j :: events[k].request != request
    {
      if events == [] || events[0].request == request then 0 else 1 + Filed(events[1..], request)
    }

    /** Compare-and-set with an idempotent receipt. */
    function Record(i: Intake, expected: string, request: string, decision: Decision, at: string): Outcome {
      if !Checked(i) then Refused
      else if decision.meaning !in selected || !(8 <= |request| <= 80) then Refused
      else
        var events, bodyHash := i.payload.events, ofDecision(decision);
        var j := Filed(events, request);
        if j < |events| then (if events[j].bodyHash == bodyHash then Accepted(i) else Refused)
        else if i.hash != expected then Refused
        else Accepted(Extend(i, Event(request, bodyHash, expected, i.payload.revision + 1, at, decision)))
    }
  }

  // File names

  function Digits(n: nat, width: nat): string {
    if width == 0 then "" else Digits(n / 10, width - 1) + [('0' as int + n % 10) as char]
  }

  function Width(n: nat): nat {
    if n < 10 then 1 else 1 + Width(n / 10)
  }

  /** The variable part of a file name: the revision with at least six digits, and the extension. */
  function Name(revision: nat): string {
    Digits(revision, if Width(revision) < 6 then 6 else Width(revision)) + ".json"
  }

  /** Python's string order. */
  predicate LexLess(a: string, b: string) {
    b != [] && (a == [] || a[0] < b[0] || (a[0] == b[0] && LexLess(a[1..], b[1..])))
  }

  type Directory = map<nat, Intake>

  /** The file whose name comes last when the names are sorted: no name comes after it. */
  ghost predicate IsLatest(files: Directory, r: nat) {
    r in files && forall r' | r' in files :: !LexLess(Name(r), Name(r'))
  }

  /** Linking never overwrites: an existing revision is accepted only when it is the very same state. */
  function Publish(files: Directory, i: Intake): Directory {
    if i.payload.revision >= 0 && i.payload.revision !in files then files[i.payload.revision := i] else files
  }

  predicate Published(files: Directory, i: Intake) {
    i.payload.revision >= 0 && i.payload.revision in files && files[i.payload.revision] == i
  }

  // The order of names is the order of revisions

  function Power(w: nat): nat {
    if w == 0 then 1 else 10 * Power(w - 1)
  }

  lemma {:induction false} DigitsSplit(n: nat, w: nat, suffix: string)
    requires w > 0
    ensures Digits(n, w) + suffix == Digits(n / 10, w - 1) + ([('0' as int + n % 10) as char] + suffix)
  {
  }

  lemma {:induction false} LexPrefix(p: string, a: string, b: string)
    requires LexLess(a, b)
    ensures LexLess(p + a, p + b)
  {
    if p == [] {
      assert p + a == a && p + b == b;
    } else {
      assert (p + a)[1..] == p[1..] + a && (p + b)[1..] == p[1..] + b;
      LexPrefix(p[1..], a, b);
    }
  }

  /** Equally long numerals order as their numbers, whatever follows them. */
  lemma {:induction false} DigitsLess(a: nat, b: nat, w: nat, after: string, after': string)
    requires a < b < Power(w)
    ensures LexLess(Digits(a, w) + after, Digits(b, w) + after')
    decreases w
  {
    var ca, cb := [('0' as int + a % 10) as char], [('0' as int + b % 10) as char];
    DigitsSplit(a, w, after);
    DigitsSplit(b, w, after');
    if a / 10 < b / 10 {
      DigitsLess(a / 10, b / 10, w - 1, ca + after, cb + after');
    } else {
      assert (ca + after)[0] < (cb + after')[0];
      LexPrefix(Digits(a / 10, w - 1), ca + after, cb + after');
    }
  }

  lemma {:induction false} WidthBelow(n: nat, w: nat)
    requires w > 0 && n < Power(w)
    ensures Width(n) <= w
  {
    if n >= 10 {
      WidthBelow(n / 10, w - 1);
    }
  }

  /** Below a million, sorting names sorts revisions. */
  lemma {:induction false} NamesOrdered(a: nat, b: nat)
    requires a < b < 1_000_000
    ensures LexLess(Name(a), Name(b))
  {
    assert Power(6) == 1_000_000 by {
      assert Power(1) == 10 && Power(2) == 100 && Power(3) == 1000 && Power(4) == 10000 && Power(5) == 100000;
    }
    WidthBelow(a, 6);
    WidthBelow(b, 6);
    DigitsLess(a, b, 6, ".json", ".json");
  }

  lemma {:induction false} FirstDigit(n: nat, w: nat)
    requires w > 0
    ensures |Digits(n, w)| == w
    ensures w > 1 ==> Digits(n, w)[0] == Digits(n / 10, w - 1)[0]
  {
    if w > 1 {
      FirstDigit(n / 10, w - 1);
    }
  }

  lemma {:induction false} MillionStartsWithOne()
    ensures Name(1_000_000)[0] == '1'
  {
    assert Width(100) == 3 && Width(100_000) == 6 && Width(1_000_000) == 7;
    FirstDigit(1_000_000, 7);
    FirstDigit(100_000, 6);
    FirstDigit(10_000, 5);
    FirstDigit(1_000, 4);
    FirstDigit(100, 3);
    FirstDigit(10, 2);
  }

  lemma {:induction false} NinesStartWithNine()
    ensures Name(999_999)[0] == '9'
  {
    assert Width(999) == 3 && Width(999_999) == 6;
    FirstDigit(999_999, 6);
    FirstDigit(99_999, 5);
    FirstDigit(9_999, 4);
    FirstDigit(999, 3);
    FirstDigit(99, 2);
  }

  /** From a million on they no longer do: the shorter name of the smaller number comes last. */
  lemma {:induction false} NamesDisorderedBeyondMillion()
    ensures LexLess(Name(1_000_000), Name(999_999)) && !LexLess(Name(999_999), Name(1_000_000))
  {
    MillionStartsWithOne();
    NinesStartWithNine();
  }

  lemma {:induction false} LexIrreflexive(a: string)
    ensures !LexLess(a, a)
  {
    if a != [] {
      LexIrreflexive(a[1..]);
    }
  }

  lemma {:induction false} LexTransitive(a: string, b: string, c: string)
    requires LexLess(a, b) && LexLess(b, c)
    ensures LexLess(a, c)
  {
    if a != [] && a[0] == b[0] && b[0] == c[0] {
      LexTransitive(a[1..], b[1..], c[1..]);
    }
  }

  /** A decision as a reviewer submits it. */
  datatype Submission = Submission(expected: string, request: string, decision: Decision, at: string)

  /** The state that a submission, or its absence, turns a read state into. */
  function Decided(q: Queue, read: Intake, submitted: Option<Submission>): Outcome {
    match submitted
    case None => Accepted(read)
    case Some(s) => q.Record(read, s.expected, s.request, s.decision, s.at)
  }

  // What is checked and recorded

  /** What was last decided on each question. */
  function Latest(events: seq<Event>): map<string, string> {
    if events == [] then map[] else
      var d := events[|events| - 1].decision;
      Latest(events[..|events| - 1])[d.meaning := d.body]
  }

  /** This event decides on the question, and none after it does. */
  ghost predicate DecidesLast(events: seq<Event>, j: int, meaning: string) {
    0 <= j < |events| && events[j].decision.meaning == meaning
    && forall h | j < h < |events| :: events[h].decision.meaning != meaning
  }

  lemma {:induction false} LatestExactly(events: seq<Event>, meaning: string, body: string)
    ensures meaning in Latest(events) && Latest(events)[meaning] == body <==>
            exists j :: DecidesLast(events, j, meaning) && events[j].decision.body == body
  {
    if events != [] {
      var front, last := events[..|events| - 1], |events| - 1;
      LatestExactly(front, meaning, body);
      if events[last].decision.meaning == meaning {
        assert DecidesLast(events, last, meaning);
      } else {
        assert forall j :: DecidesLast(events, j, meaning) <==> DecidesLast(front, j, meaning);
        assert forall j | 0 <= j < last :: front[j] == events[j];
      }
    }
  }

  /** The payload after these events. */
  function PayloadOf(events: seq<Event>): Payload {
    Payload(|events|, events, Latest(events))
  }

  /** The event at `j` is one more decision on a selected question, under a new request, on top of the state so far. */
  ghost predicate InPlace(q: Queue, events: seq<Event>, j: nat)
    requires j < |events|
  {
    var e := events[j];
    && e.previous == q.ofPayload(PayloadOf(events[..j])) && e.revision == j + 1
    && e.bodyHash == q.ofDecision(e.decision) && e.decision.meaning in q.selected
    && forall h | 0 <= h < j :: events[h].request != e.request
  }

  ghost predicate AllInPlace(q: Queue, events: seq<Event>) {
    forall j: nat | j < |events| :: InPlace(q, events, j)
  }

  lemma {:induction false} AllInPlaceNext(q: Queue, events: seq<Event>)
    requires events != []
    ensures AllInPlace(q, events) <==> AllInPlace(q, events[..|events| - 1]) && InPlace(q, events, |events| - 1)
  {
    var front := events[..|events| - 1];
    forall j: nat | j < |front|
      ensures InPlace(q, front, j) <==> InPlace(q, events, j)
    {
      assert front[..j] == events[..j] && front[j] == events[j];
    }
  }

  /** Events can be replayed if and only if every one of them is in its place, and they lead to the state they describe. */
  lemma {:induction false} ReplayExactly(q: Queue, events: seq<Event>)
    ensures q.Replay(events) == if AllInPlace(q, events) then Some(Intake(PayloadOf(events), q.ofPayload(PayloadOf(events)))) else None
  {
    if events != [] {
      ReplayExactly(q, events[..|events| - 1]);
      AllInPlaceNext(q, events);
      assert events == events[..|events| - 1] + [events[|events| - 1]];
      assert events[..|events| - 1][..|events| - 1] == events[..|events| - 1];
    }
  }

  lemma {:induction false} LatestSelected(q: Queue, events: seq<Event>)
    requires AllInPlace(q, events)
    ensures Latest(events).Keys <= q.selected
  {
    if events != [] {
      AllInPlaceNext(q, events);
      LatestSelected(q, events[..|events| - 1]);
    }
  }

  /** A state passes the check if and only if it is what its at most 10000 events, each in its place, lead to. */
  lemma {:induction false} CheckedExactly(q: Queue, i: Intake)
    ensures q.Checked(i) <==>
            var events := i.payload.events;
            && |events| <= 10000 && AllInPlace(q, events)
            && i.payload == PayloadOf(events) && i.hash == q.ofPayload(i.payload)
  {
    var events := i.payload.events;
    ReplayExactly(q, events);
    if AllInPlace(q, events) {
      LatestSelected(q, events);
    }
  }

  ghost predicate FiledAt(events: seq<Event>, request: string, j: int) {
    0 <= j < |events| && events[j].request == request
  }

  /** A decision is accepted if and only if the state passes the check, the question is selected, the request key has 8 to
      80 characters, and either the same decision is on file under it, and then nothing changes, or none is and the
      reviewer names the hash of the state, and then the decision is added. */
  lemma {:induction false} RecordExactly(q: Queue, i: Intake, expected: string, request: string, decision: Decision, at: string)
    ensures var (events, out) := (i.payload.events, q.Record(i, expected, request, decision, at));
            var added := events + [Event(request, q.ofDecision(decision), expected, i.payload.revision + 1, at, decision)];
            && (out.Accepted? <==>
                  && q.Checked(i) && decision.meaning in q.selected && 8 <= |request| <= 80
                  && (if exists j :: FiledAt(events, request, j)
                      then exists j :: FiledAt(events, request, j) && events[j].bodyHash == q.ofDecision(decision)
                      else i.hash == expected))
            && (out.Accepted? && (exists j :: FiledAt(events, request, j)) ==> out.intake == i)
            && (out.Accepted? && !(exists j :: FiledAt(events, request, j)) ==>
                  out.intake == Intake(PayloadOf(added), q.ofPayload(PayloadOf(added))))
  {
    var events := i.payload.events;
    var j := q.Filed(events, request);
    if j < |events| {
      assert FiledAt(events, request, j);
      if q.Checked(i) {
        OnlyFiled(q, i, request, j);
      }
    } else if q.Checked(i) {
      CheckedExactly(q, i);
      var e := Event(request, q.ofDecision(decision), expected, i.payload.revision + 1, at, decision);
      assert (events + [e])[..|events|] == events;
    }
  }

  lemma {:induction false} OnlyFiled(q: Queue, i: Intake, request: string, j: nat)
    requires q.Checked(i) && FiledAt(i.payload.events, request, j)
    ensures forall h | FiledAt(i.payload.events, request, h) :: h == j
  {
    CheckedExactly(q, i);
    forall h | FiledAt(i.payload.events, request, h)
      ensures h == j
    {
      assert InPlace(q, i.payload.events, h) && InPlace(q, i.payload.events, j);
    }
  }

  // What a name says

  function NumberOf(digits: string): int {
    if digits == "" then 0
    else 10 * NumberOf(digits[..|digits| - 1]) + (digits[|digits| - 1] as int - '0' as int)
  }

  lemma {:induction false} DigitsRead(n: nat, w: nat)
    requires n < Power(w)
    ensures |Digits(n, w)| == w && AllDigits(Digits(n, w)) && NumberOf(Digits(n, w)) == n
  {
    if w > 0 {
      DigitsRead(n / 10, w - 1);
      var d := Digits(n, w);
      assert d[..|d| - 1] == Digits(n / 10, w - 1);
    }
  }

  lemma {:induction false} WidthEnough(n: nat)
    ensures Width(n) > 0 && n < Power(Width(n))
    ensures Width(n) > 1 ==> n >= Power(Width(n) - 1)
  {
    if n >= 10 {
      WidthEnough(n / 10);
    }
  }

  lemma {:induction false} PowerGrows(v: nat, w: nat)
    requires v <= w
    ensures Power(v) <= Power(w)
  {
    if v < w {
      PowerGrows(v, w - 1);
    }
  }

  /** A file is named by the decimal digits of its revision, at least six, with leading zeros only to make up six, and
      the extension. */
  lemma {:induction false} NameExactly(revision: nat) returns (digits: string)
    ensures Name(revision) == digits + ".json" && AllDigits(digits) && NumberOf(digits) == revision
    ensures |digits| >= 6 && (|digits| > 6 ==> revision >= Power(|digits| - 1))
  {
    var w := if Width(revision) < 6 then 6 else Width(revision);
    WidthEnough(revision);
    PowerGrows(Width(revision), w);
    DigitsRead(revision, w);
    digits := Digits(revision, w);
  }

  /** The review directory of one queue. */
  class ReviewDirectory {
    var files: Directory

    constructor ()
      ensures files == map[]
    {
      files := map[];
    }

    method Latest() returns (latest: Option<nat>)
      ensures latest == None <==> files == map[]
      ensures latest.Some? ==> IsLatest(files, latest.value)
    {
      latest := None;
      var rest := files.Keys;
      while rest != {}
        invariant rest <= files.Keys
        invariant latest == None <==> rest == files.Keys
        invariant latest.Some? ==> latest.value in files
        invariant latest.Some? ==> forall r | r in files.Keys - rest :: !LexLess(Name(latest.value), Name(r))
        decreases |rest|
      {
        var r :| r in rest;
        rest := rest - {r};
        if latest.None? || LexLess(Name(latest.value), Name(r)) {
          ghost var before := latest;
          latest := Some(r);
          forall r' | r' in files.Keys - rest
            ensures !LexLess(Name(r), Name(r'))
          {
            LexIrreflexive(Name(r));
            if before.Some? && LexLess(Name(r), Name(r')) {
              LexTransitive(Name(before.value), Name(r), Name(r'));
            }
          }
        }
      }
    }

    method SaveRevision(i: Intake) returns (ok: bool)
      requires i.payload.revision >= 0
      modifies this
      ensures files == if i.payload.revision in old(files) then old(files) else old(files)[i.payload.revision := i]
      ensures ok <==> i.payload.revision !in old(files) || old(files)[i.payload.revision] == i
      ensures files == Publish(old(files), i) && (ok <==> Published(files, i))
    {
      var r := i.payload.revision;
      if r !in files {
        files := files[r := i];
      }
      ok := files[r] == i;
    }

    /** One undisturbed review: the latest state is read and checked, the submission recorded on it, and the outcome published. */
    method Review(q: Queue, submitted: Option<Submission>) returns (out: Outcome)
      modifies this
      ensures old(files) == map[] ==> out == Decided(q, q.Start(), submitted)
      ensures old(files) != map[] ==>
                exists r :: IsLatest(old(files), r) &&
                            out == if q.Checked(old(files)[r]) then Decided(q, old(files)[r], submitted) else Refused
      ensures files == if out.Accepted? then Publish(old(files), out.intake) else old(files)
    {
      var latest := Latest();
      var read := if latest.Some? then files[latest.value] else q.Start();
      if latest.Some? && !q.Checked(read) {
        return Refused;
      }
      out := Decided(q, read, submitted);
      if out.Accepted? {
        var saved := SaveRevision(out.intake);
      }
    }
  }
}
