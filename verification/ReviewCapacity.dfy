/** How far a review log can grow, and when it can still be read. */
module ReviewCapacity {
  import opened Strings
  import opened ReviewLog
  import opened ReviewProtocol

  /** What a replayed history leads to. */
  lemma {:induction false} ReplayShape(q: Queue, events: seq<Event>)
    requires q.Replay(events).Some?
    ensures var i := q.Replay(events).value;
            i == q.Sealed(i.payload) && i.payload.events == events && i.payload.revision == |events|
            && i.payload.decisions.Keys <= q.selected
    ensures events != [] ==> q.selected != {}
  {
    if events != [] {
      ReplayShape(q, events[..|events| - 1]);
      assert events[|events| - 1].decision.meaning in q.selected;
    }
  }

  lemma {:induction false} GenuineReadable(q: Queue, i: Intake)
    requires Genuine(q, i)
    ensures q.Checked(i) <==> i.payload.revision <= 10000
  {
    ReplayShape(q, i.payload.events);
  }

  lemma {:induction false} HighestReadable(q: Queue, files: Directory, r: nat)
    requires FilesSound(q, files) && r in files && forall r' | r' in files :: r' <= r
    ensures q.Checked(files[r]) <==> 10001 !in files
  {
    assert Genuine(q, files[r]) && files[r].payload.revision == r;
    GenuineReadable(q, files[r]);
  }

  /** A review log can be read if and only if revision 10001 has not been published. */
  lemma {:induction false} ReadableUnlessFull(q: Queue, actions: seq<Action>, r: nat)
    requires IsLatest(Run(q, EMPTY, actions).files, r)
    ensures var files := Run(q, EMPTY, actions).files;
            q.Checked(files[r]) <==> 10001 !in files
  {
    EveryRunSound(q, actions);
    LatestIsHighest(q, actions, r);
    HighestReadable(q, Run(q, EMPTY, actions).files, r);
  }

  // Every revision up to the last is reachable

  /** The request key of the `n`-th decision of the run below. */
  function RequestKey(n: nat): string {
    Digits(n, 8)
  }

  lemma {:induction false} RequestKeys(a: nat, b: nat)
    requires a < b < 100_000_000
    ensures RequestKey(a) != RequestKey(b) && |RequestKey(b)| == 8
  {
    assert Power(8) == 100_000_000 by {
      assert Power(2) == 100 && Power(4) == 10_000 && Power(6) == 1_000_000;
    }
    DigitsLess(a, b, 8, "", "");
    assert Digits(a, 8) + "" == Digits(a, 8) && Digits(b, 8) + "" == Digits(b, 8);
    LexIrreflexive(Digits(a, 8));
    FirstDigit(b, 8);
  }

  lemma {:induction false} KeyLength(n: nat)
    ensures |RequestKey(n)| == 8
  {
    FirstDigit(n, 8);
  }

  /** The history used the first request keys in turn. */
  predicate InTurn(events: seq<Event>) {
    forall j | 0 <= j < |events| :: events[j].request == RequestKey(j)
  }

  lemma {:induction false} KeyUnused(q: Queue, events: seq<Event>)
    requires InTurn(events) && |events| < 100_000_000
    ensures q.Filed(events, RequestKey(|events|)) == |events|
  {
    forall j | 0 <= j < |events|
      ensures events[j].request != RequestKey(|events|)
    {
      RequestKeys(j, |events|);
    }
  }

  /** Revision `n` is the last one published, with the keys used in turn, and nobody is at work. */
  ghost predicate AtRevision(w: World, n: nat) {
    && n in w.files && w.live == map[] && (forall r | r in w.files :: r <= n)
    && w.files[n].payload.revision == n && InTurn(w.files[n].payload.events)
  }

  lemma {:induction false} RunAppend(q: Queue, w: World, a: seq<Action>, b: seq<Action>)
    ensures Run(q, w, a + b) == Run(q, Run(q, w, a), b)
  {
    if b == [] {
      assert a + b == a;
    } else {
      assert (a + b)[..|a + b| - 1] == a + b[..|b| - 1];
      RunAppend(q, w, a, b[..|b| - 1]);
    }
  }

  lemma {:induction false} RunThree(q: Queue, w: World, a: Action, b: Action, c: Action)
    ensures Run(q, w, [a, b, c]) == Next(q, Next(q, Next(q, w, a), b), c)
  {
    assert [a, b, c][..2] == [a, b] && [a, b][..1] == [a] && [a][..0] == [];
    assert Run(q, w, [a]) == Next(q, Run(q, w, []), a);
    assert Run(q, w, [a, b]) == Next(q, Run(q, w, [a]), b);
  }

  lemma {:induction false} FirstRevision(q: Queue)
    ensures AtRevision(Run(q, EMPTY, [ReadEmpty(0), Keep(0), Save(0)]), 0)
  {
    RunThree(q, EMPTY, ReadEmpty(0), Keep(0), Save(0));
    var w1 := Next(q, EMPTY, ReadEmpty(0));
    assert w1 == World(map[], map[0 := HasRead(q.Start())]);
    var w2 := Next(q, w1, Keep(0));
    assert w2 == World(map[], map[0 := ToPublish(q.Start())]);
    var w3 := Next(q, w2, Save(0));
    assert w3.files == map[0 := q.Start()] && w3.live == map[];
  }

  lemma {:induction false} RecordNew(q: Queue, i: Intake, request: string, decision: Decision)
    requires q.Checked(i) && decision.meaning in q.selected && 8 <= |request| <= 80
    requires q.Filed(i.payload.events, request) == |i.payload.events|
    ensures q.Record(i, i.hash, request, decision, "") ==
            Accepted(q.Extend(i, Event(request, q.ofDecision(decision), i.hash, i.payload.revision + 1, "", decision)))
  {
  }

  /** A decision under an unused key, on the very state it names, is recorded. */
  lemma {:induction false} Recorded(q: Queue, i: Intake, decision: Decision) returns (next: Intake)
    requires q.Checked(i) && InTurn(i.payload.events) && decision.meaning in q.selected
    ensures q.Record(i, i.hash, RequestKey(i.payload.revision), decision, "") == Accepted(next)
    ensures next.payload.revision == i.payload.revision + 1 && InTurn(next.payload.events)
  {
    var n, events := i.payload.revision, i.payload.events;
    HistoryLength(q, i);
    KeyUnused(q, events);
    KeyLength(n);
    RecordNew(q, i, RequestKey(n), decision);
    var e := Event(RequestKey(n), q.ofDecision(decision), i.hash, n + 1, "", decision);
    InTurnNext(events, e);
    next := q.Extend(i, e);
  }

  lemma {:induction false} HistoryLength(q: Queue, i: Intake)
    requires q.Checked(i)
    ensures |i.payload.events| == i.payload.revision <= 10000
  {
  }

  lemma {:induction false} InTurnNext(events: seq<Event>, e: Event)
    requires InTurn(events) && e.request == RequestKey(|events|)
    ensures InTurn(events + [e])
  {
  }

  lemma {:induction false} NextRevision(q: Queue, w: World, n: nat, decision: Decision) returns (w': World)
    requires AtRevision(w, n) && IsLatest(w.files, n) && q.Checked(w.files[n]) && decision.meaning in q.selected
    ensures w' == Run(q, w, [Read(0, n), Decide(0, w.files[n].hash, RequestKey(n), decision, ""), Save(0)])
    ensures AtRevision(w', n + 1)
  {
    var i := w.files[n];
    var decide := Decide(0, i.hash, RequestKey(n), decision, "");
    var next := Recorded(q, i, decision);
    RunThree(q, w, Read(0, n), decide, Save(0));
    assert Next(q, w, Read(0, n)) == World(w.files, map[0 := HasRead(i)]);
    DecideStep(q, World(w.files, map[0 := HasRead(i)]), i, next, decide);
    SaveStep(q, World(w.files, map[0 := ToPublish(next)]), next);
    w' := World(w.files[n + 1 := next], map[]);
    PublishedNext(w, n, next);
  }

  lemma {:induction false} DecideStep(q: Queue, w: World, i: Intake, next: Intake, a: Action)
    requires a.Decide? && a.id == 0 && w.live == map[0 := HasRead(i)]
    requires q.Record(i, a.expected, a.request, a.decision, a.at) == Accepted(next)
    ensures Next(q, w, a) == World(w.files, map[0 := ToPublish(next)])
  {
    assert Next(q, w, a) == w.(live := w.live[0 := ToPublish(next)]);
    OnlyPhase(HasRead(i), ToPublish(next));
  }

  lemma {:induction false} OnlyPhase(p: Phase, p': Phase)
    ensures map[0 as nat := p][0 := p'] == map[0 := p']
  {
  }

  lemma {:induction false} SaveStep(q: Queue, w: World, next: Intake)
    requires w.live == map[0 := ToPublish(next)] && next.payload.revision >= 0 && next.payload.revision !in w.files
    ensures Next(q, w, Save(0)) == World(w.files[next.payload.revision := next], map[])
  {
  }

  lemma {:induction false} PublishedNext(w: World, n: nat, next: Intake)
    requires AtRevision(w, n) && next.payload.revision == n + 1 && InTurn(next.payload.events)
    ensures AtRevision(World(w.files[n + 1 := next], map[]), n + 1)
  {
  }

  lemma {:induction false} Reach(q: Queue, n: nat, decision: Decision) returns (actions: seq<Action>)
    requires n <= 10001 && decision.meaning in q.selected
    ensures AtRevision(Run(q, EMPTY, actions), n)
  {
    if n == 0 {
      actions := [ReadEmpty(0), Keep(0), Save(0)];
      FirstRevision(q);
    } else {
      var before := Reach(q, n - 1, decision);
      var w := Run(q, EMPTY, before);
      LatestIsHighest(q, before, n - 1);
      ReadableUnlessFull(q, before, n - 1);
      var w' := NextRevision(q, w, n - 1, decision);
      var more := [Read(0, n - 1), Decide(0, w.files[n - 1].hash, RequestKey(n - 1), decision, ""), Save(0)];
      actions := before + more;
      RunAppend(q, EMPTY, before, more);
    }
  }

  ghost predicate Publishes(q: Queue, actions: seq<Action>, n: nat) {
    n in Run(q, EMPTY, actions).files
  }

  /** A revision after the start can be published if and only if it is at most 10001 and there is a question to decide. */
  lemma {:induction false} RevisionsReachable(q: Queue, n: nat)
    requires n > 0
    ensures (exists actions: seq<Action> :: Publishes(q, actions, n)) <==> n <= 10001 && q.selected != {}
  {
    if n <= 10001 && q.selected != {} {
      var meaning :| meaning in q.selected;
      var actions := Reach(q, n, Decision(meaning, ""));
      assert Publishes(q, actions, n);
    }
    if actions: seq<Action> :| Publishes(q, actions, n) {
      EveryRunSound(q, actions);
      RevisionBounded(q, Run(q, EMPTY, actions).files, n);
    }
  }

  lemma {:induction false} RevisionBounded(q: Queue, files: Directory, n: nat)
    requires FilesSound(q, files) && n in files && n > 0
    ensures n <= 10001 && q.selected != {}
  {
    assert Genuine(q, files[n]) && files[n].payload.revision == n;
    ReplayShape(q, files[n].payload.events);
  }
}
