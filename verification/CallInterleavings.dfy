/** Every interleaving of invocations of the bounded diagnosis, including crashes at any point. */
module CallInterleavings {
  import opened Strings
  import opened CallReservation
  import opened Collections

  /** Where an invocation stands. */
  datatype Phase =
    | Booked(name: string, request: string)
    | Ready(name: string, request: string)
    | Ended(name: string, request: string, result: Result)
    | Halting
    | Reconciling(seen: map<string, Result>)

  datatype Event =
    | Reservation(name: string, request: string)
    | ProviderCall(name: string, request: string, ending: Ending)

  datatype World = World(ledger: Ledger, live: map<nat, Phase>, log: seq<Event>)

  /** One atomic step of invocation `id`. A step that is not enabled changes nothing. */
  datatype Action =
    | DoReserve(id: nat, name: string, request: string)
    | DoSaveRequest(id: nat)
    | DoCall(id: nat, ending: Ending)
    | DoRecord(id: nat)
    | DoHalt(id: nat)
    | DoReadResults(id: nat)
    | DoReopen(id: nat)
    | DoClose
    | DoCrash(id: nat)

  const START := World(Ledger(0, false, [], map[]), map[], [])

  function Next(w: World, a: Action): World {
    var l, live := w.ledger, w.live;
    match a
    case DoReserve(id, name, request) =>
      if id !in live && MayReserve(l, name, request) then
        World(Reserve(l, name, request), live[id := Booked(name, request)], w.log + [Reservation(name, request)])
      else w
    case DoSaveRequest(id) =>
      if id in live && live[id].Booked? then w.(live := live[id := Ready(live[id].name, live[id].request)]) else w
    case DoCall(id, ending) =>
      if id in live && live[id].Ready? then
        var (name, request) := (live[id].name, live[id].request);
        w.(live := live[id := Ended(name, request, Judged(ending))], log := w.log + [ProviderCall(name, request, ending)])
      else w
    case DoRecord(id) =>
      if id in live && live[id].Ended? then
        var p := live[id];
        var saved := p.name !in l.results;
        w.(ledger := SaveResult(l, p.name, p.result),
           live := if saved && p.result.halts then live[id := Halting] else live - {id})
      else w
    case DoHalt(id) =>
      if id in live && live[id].Halting? then w.(ledger := l.(halted := true), live := live - {id}) else w
    case DoReadResults(id) =>
      if id !in live && Reconcilable(l.results) then w.(live := live[id := Reconciling(l.results)]) else w
    case DoReopen(id) =>
      if id in live && live[id].Reconciling? then w.(ledger := l.(halted := false), live := live - {id}) else w
    case DoClose => w.(ledger := l.(halted := true))
    case DoCrash(id) => w.(live := live - {id})
  }

  function Run(w: World, actions: seq<Action>): World {
    if actions == [] then w else Next(Run(w, actions[..|actions| - 1]), actions[|actions| - 1])
  }

  predicate Carries(p: Phase) {
    p.Booked? || p.Ready? || p.Ended?
  }

  /** The reservation is on the books. */
  predicate OnBooks(l: Ledger, name: string, request: string) {
    (name, request) in l.calls
  }

  function Names(calls: seq<(string, string)>): set<string> {
    set c | c in calls :: c.0
  }

  ghost predicate LedgerSound(l: Ledger) {
    && l.reserved == |l.calls| <= MAX_CALLS
    && (forall i, j | 0 <= i < j < |l.calls| :: l.calls[i].0 != l.calls[j].0 && l.calls[i].1 != l.calls[j].1)
    && l.results.Keys <= Names(l.calls)
  }

  /** The log has a provider call under this label. */
  predicate Called(log: seq<Event>, name: string) {
    exists i | 0 <= i < |log| :: log[i].ProviderCall? && log[i].name == name
  }

  /** The log has a provider call under this label that ended as the result says. */
  predicate Ends(log: seq<Event>, name: string, r: Result) {
    exists i | 0 <= i < |log| :: log[i].ProviderCall? && log[i].name == name && Judged(log[i].ending) == r
  }

  /** An invocation on its way to the provider holds a reservation, has not filed its result,
      and has called the provider only if its call has ended. */
  ghost predicate Pending(l: Ledger, log: seq<Event>, p: Phase) {
    Carries(p) ==>
      && OnBooks(l, p.name, p.request) && p.name !in l.results
      && if p.Ended? then Ends(log, p.name, p.result) else !Called(log, p.name)
  }

  /** The results of the snapshot still stand. */
  predicate Stands(results: map<string, Result>, seen: map<string, Result>) {
    forall k | k in seen :: k in results && seen[k] == results[k]
  }

  ghost predicate Snapshot(l: Ledger, p: Phase) {
    p.Reconciling? ==> Reconcilable(p.seen) && Stands(l.results, p.seen)
  }

  ghost predicate LiveSound(w: World) {
    && (forall id | id in w.live :: Pending(w.ledger, w.log, w.live[id]) && Snapshot(w.ledger, w.live[id]))
    && (forall id, id' | id in w.live && id' in w.live && id != id' && Carries(w.live[id]) && Carries(w.live[id']) ::
          w.live[id].name != w.live[id'].name)
  }

  ghost predicate Preceded(log: seq<Event>, i: nat)
    requires i < |log|
  {
    log[i].ProviderCall? ==> Reservation(log[i].name, log[i].request) in log[..i]
  }

  /** Neither label nor kind repeats. */
  ghost predicate NoRepeats(log: seq<Event>) {
    forall i, j | 0 <= i < j < |log| && log[i].ProviderCall? == log[j].ProviderCall? :: log[i].name != log[j].name
  }

  /** The log pairs every provider call with one earlier reservation and repeats nothing, and every result on file
      is what a provider call came to. */
  ghost predicate LogSound(l: Ledger, log: seq<Event>) {
    && NoRepeats(log)
    && (forall i | 0 <= i < |log| :: OnBooks(l, log[i].name, log[i].request) && Preceded(log, i))
    && (forall c | c in l.calls :: Reservation(c.0, c.1) in log)
    && (forall k | k in l.results :: Ends(log, k, l.results[k]))
  }

  ghost predicate Sound(w: World) {
    LedgerSound(w.ledger) && LiveSound(w) && LogSound(w.ledger, w.log)
  }

  // Every step keeps the protocol sound

  lemma {:induction false} EndsGrows(log: seq<Event>, e: Event, name: string, r: Result)
    requires Ends(log, name, r)
    ensures Ends(log + [e], name, r)
  {
    var i :| 0 <= i < |log| && log[i].ProviderCall? && log[i].name == name && Judged(log[i].ending) == r;
    assert (log + [e])[i] == log[i];
  }

  lemma {:induction false} CalledNext(log: seq<Event>, e: Event, name: string)
    ensures Called(log + [e], name) <==> Called(log, name) || (e.ProviderCall? && e.name == name)
  {
    if i :| 0 <= i < |log| && log[i].ProviderCall? && log[i].name == name {
      assert (log + [e])[i] == log[i];
    }
    assert (log + [e])[|log|] == e;
  }

  /** No event of the log has this kind and label. */
  ghost predicate Fresh(log: seq<Event>, e: Event) {
    forall i | 0 <= i < |log| && log[i].ProviderCall? == e.ProviderCall? :: log[i].name != e.name
  }

  lemma {:induction false} LogGrows(l: Ledger, l': Ledger, log: seq<Event>, e: Event)
    requires LogSound(l, log) && Fresh(log, e) && OnBooks(l', e.name, e.request) && l'.results == l.results
    requires l'.calls == if e.Reservation? then l.calls + [(e.name, e.request)] else l.calls
    requires e.ProviderCall? ==> Reservation(e.name, e.request) in log
    ensures LogSound(l', log + [e])
  {
    var log' := log + [e];
    forall i | 0 <= i < |log'|
      ensures OnBooks(l', log'[i].name, log'[i].request) && Preceded(log', i)
    {
      assert log'[..i] == log[..i];
      if i < |log| {
        assert log'[i] == log[i] && OnBooks(l, log[i].name, log[i].request) && Preceded(log, i);
      } else {
        assert log[..i] == log;
      }
    }
    forall c | c in l'.calls
      ensures Reservation(c.0, c.1) in log'
    {
      assert c in l.calls || Reservation(c.0, c.1) == e;
    }
    forall k | k in l'.results
      ensures Ends(log', k, l'.results[k])
    {
      EndsGrows(log, e, k, l.results[k]);
    }
  }

  lemma {:induction false} PendingGrows(l: Ledger, l': Ledger, log: seq<Event>, e: Event, p: Phase)
    requires Pending(l, log, p) && l.calls <= l'.calls && l'.results == l.results
    requires e.ProviderCall? && Carries(p) ==> p.name != e.name
    ensures Pending(l', log + [e], p)
  {
    if Carries(p) {
      CalledNext(log, e, p.name);
      if p.Ended? {
        EndsGrows(log, e, p.name, p.result);
      }
    }
  }

  lemma {:induction false} ReserveLedger(l: Ledger, name: string, request: string)
    requires LedgerSound(l) && MayReserve(l, name, request)
    ensures LedgerSound(Reserve(l, name, request))
    ensures forall n, r :: OnBooks(Reserve(l, name, request), n, r) <==> OnBooks(l, n, r) || (n, r) == (name, request)
    ensures name !in l.results && !OnBooks(l, name, request)
    ensures forall n, r :: OnBooks(l, n, r) ==> n != name
  {
  }

  lemma {:induction false} ReserveSound(w: World, id: nat, name: string, request: string)
    requires Sound(w) && id !in w.live && MayReserve(w.ledger, name, request)
    ensures Sound(Next(w, DoReserve(id, name, request)))
  {
    var w' := Next(w, DoReserve(id, name, request));
    var l, l', e := w.ledger, w'.ledger, Reservation(name, request);
    ReserveLedger(l, name, request);
    assert w'.log == w.log + [e];
    forall i | 0 <= i < |w.log|
      ensures w.log[i].name != name
    {
      assert OnBooks(l, w.log[i].name, w.log[i].request);
    }
    LogGrows(l, l', w.log, e);
    forall id' | id' in w'.live
      ensures Pending(l', w'.log, w'.live[id']) && Snapshot(l', w'.live[id'])
      ensures id' != id && Carries(w'.live[id']) ==> w'.live[id'].name != name
    {
      if id' != id {
        assert Pending(l, w.log, w.live[id']) && Snapshot(l, w.live[id']);
        PendingGrows(l, l', w.log, e, w.live[id']);
      } else {
        CalledNext(w.log, e, name);
      }
    }
  }

  /** A step that moves one invocation on, without touching ledger or log. */
  lemma {:induction false} MoveSound(w: World, id: nat, p: Phase)
    requires Sound(w) && Pending(w.ledger, w.log, p) && Snapshot(w.ledger, p)
    requires Carries(p) ==> id in w.live && Carries(w.live[id]) && w.live[id].name == p.name
    ensures Sound(w.(live := w.live[id := p]))
  {
  }

  /** A step that ends one invocation, perhaps setting or clearing the halt. */
  lemma {:induction false} LeaveSound(w: World, gone: set<nat>, halted: bool)
    requires Sound(w)
    ensures Sound(w.(ledger := w.ledger.(halted := halted), live := w.live - gone))
  {
  }

  lemma {:induction false} CallSound(w: World, id: nat, ending: Ending)
    requires Sound(w) && id in w.live && w.live[id].Ready?
    ensures Sound(Next(w, DoCall(id, ending)))
  {
    var w' := Next(w, DoCall(id, ending));
    var p := w.live[id];
    var e := ProviderCall(p.name, p.request, ending);
    assert Pending(w.ledger, w.log, p);
    LogGrows(w.ledger, w.ledger, w.log, e);
    assert w'.log == w.log + [e];
    forall id' | id' in w'.live
      ensures Pending(w.ledger, w'.log, w'.live[id']) && Snapshot(w.ledger, w'.live[id'])
    {
      if id' != id {
        assert Pending(w.ledger, w.log, w.live[id']) && Snapshot(w.ledger, w.live[id']);
        PendingGrows(w.ledger, w.ledger, w.log, e, w.live[id']);
      } else {
        assert w'.log[|w.log|] == e;
      }
    }
  }

  lemma {:induction false} FileSound(w: World, id: nat)
    requires Sound(w) && id in w.live && w.live[id].Ended?
    ensures var p := w.live[id];
            p.name !in w.ledger.results
            && Sound(w.(ledger := SaveResult(w.ledger, p.name, p.result), live := w.live - {id}))
  {
    var p := w.live[id];
    assert Pending(w.ledger, w.log, p);
    var l' := SaveResult(w.ledger, p.name, p.result);
    assert LedgerSound(l') by {
      assert (p.name, p.request).0 in Names(l'.calls);
    }
    assert LogSound(l', w.log) by {
      assert forall i | 0 <= i < |w.log| :: OnBooks(w.ledger, w.log[i].name, w.log[i].request);
    }
    forall id' | id' in w.live - {id}
      ensures Pending(l', w.log, w.live[id']) && Snapshot(l', w.live[id'])
    {
      assert Pending(w.ledger, w.log, w.live[id']) && Snapshot(w.ledger, w.live[id']);
    }
  }

  lemma {:induction false} RecordSound(w: World, id: nat)
    requires Sound(w) && id in w.live && w.live[id].Ended?
    ensures Sound(Next(w, DoRecord(id)))
  {
    var p := w.live[id];
    FileSound(w, id);
    var filed := w.(ledger := SaveResult(w.ledger, p.name, p.result), live := w.live - {id});
    if p.result.halts {
      MoveSound(filed, id, Halting);
      assert filed.live[id := Halting] == w.live[id := Halting];
    }
  }

  lemma {:induction false} NextSound(w: World, a: Action)
    requires Sound(w)
    ensures Sound(Next(w, a))
  {
    if Next(w, a) != w {
      match a
      case DoReserve(id, name, request) => ReserveSound(w, id, name, request);
      case DoSaveRequest(id) =>
        assert Pending(w.ledger, w.log, w.live[id]);
        MoveSound(w, id, Ready(w.live[id].name, w.live[id].request));
      case DoCall(id, ending) => CallSound(w, id, ending);
      case DoRecord(id) => RecordSound(w, id);
      case DoHalt(id) => LeaveSound(w, {id}, true);
      case DoReadResults(id) => MoveSound(w, id, Reconciling(w.ledger.results));
      case DoReopen(id) => LeaveSound(w, {id}, false);
      case DoClose =>
        LeaveSound(w, {}, true);
        assert w.live - {} == w.live;
      case DoCrash(id) => LeaveSound(w, {id}, w.ledger.halted);
    }
  }

  /** Whatever the interleaving and wherever invocations crash, the protocol stays sound. */
  lemma {:induction false} EveryRunSound(actions: seq<Action>)
    ensures Sound(Run(START, actions))
  {
    if actions != [] {
      EveryRunSound(actions[..|actions| - 1]);
      NextSound(Run(START, actions[..|actions| - 1]), actions[|actions| - 1]);
    }
  }

  // The main results

  /** No step refunds a reservation or alters a result; a reservation is made only below the limit,
      while not halted, and for a label and a request that were never reserved before. */
  lemma {:induction false} StepMonotone(w: World, a: Action)
    requires Sound(w)
    ensures var l, l' := w.ledger, Next(w, a).ledger;
            && l.reserved <= l'.reserved <= MAX_CALLS && l.calls <= l'.calls
            && l.results.Keys <= l'.results.Keys && (forall k | k in l.results :: l'.results[k] == l.results[k])
            && (l'.calls != l.calls ==>
                  a.DoReserve? && !l.halted && l'.calls == l.calls + [(a.name, a.request)] && !Taken(l.calls, a.name, a.request))
  {
    if !a.DoReserve? && !a.DoRecord? {
      LedgerKept(w, a);
    }
  }

  lemma {:induction false} LedgerKept(w: World, a: Action)
    requires !a.DoReserve? && !a.DoRecord?
    ensures Next(w, a).ledger.(halted := w.ledger.halted) == w.ledger
  {
  }

  lemma {:induction false} RunMonotone(w: World, actions: seq<Action>)
    requires Sound(w)
    ensures Sound(Run(w, actions))
    ensures var l, l' := w.ledger, Run(w, actions).ledger;
            l.reserved <= l'.reserved && l.calls <= l'.calls && l.results.Keys <= l'.results.Keys
            && forall k | k in l.results :: l'.results[k] == l.results[k]
  {
    if actions != [] {
      var front := actions[..|actions| - 1];
      RunMonotone(w, front);
      NextSound(Run(w, front), actions[|actions| - 1]);
      StepMonotone(Run(w, front), actions[|actions| - 1]);
    }
  }

  /** In every run each provider call comes after its own reservation, and no label or request is called twice. */
  lemma {:induction false} OneCallPerReservation(actions: seq<Action>, i: nat)
    requires i < |Run(START, actions).log| && Run(START, actions).log[i].ProviderCall?
    ensures var w := Run(START, actions);
            var call := w.log[i];
            && Reservation(call.name, call.request) in w.log[..i] && OnBooks(w.ledger, call.name, call.request)
            && forall j | 0 <= j < |w.log| && j != i && w.log[j].ProviderCall? ::
                 w.log[j].name != call.name && w.log[j].request != call.request
  {
    EveryRunSound(actions);
    var w := Run(START, actions);
    assert Preceded(w.log, i);
    forall j | 0 <= j < |w.log| && j != i && w.log[j].ProviderCall?
      ensures w.log[j].name != w.log[i].name && w.log[j].request != w.log[i].request
    {
      OwnRequest(w, i, j);
    }
  }

  lemma {:induction false} OwnRequest(w: World, i: nat, j: nat)
    requires Sound(w) && i < |w.log| && j < |w.log| && i != j && w.log[i].ProviderCall? && w.log[j].ProviderCall?
    ensures w.log[i].name != w.log[j].name && w.log[i].request != w.log[j].request
  {
    var a: nat :| a < |w.ledger.calls| && w.ledger.calls[a] == (w.log[i].name, w.log[i].request);
    var b: nat :| b < |w.ledger.calls| && w.ledger.calls[b] == (w.log[j].name, w.log[j].request);
  }

  /** Step `m` reopens the campaign on what the same invocation read at step `r`: in-limit responses that still stand. */
  ghost predicate ReopensOn(actions: seq<Action>, r: nat, m: nat) {
    && r < m < |actions| && actions[m].DoReopen? && actions[r] == DoReadResults(actions[m].id)
    && var seen := Run(START, actions[..r]).ledger.results;
       Reconcilable(seen) && Stands(Run(START, actions[..m]).ledger.results, seen)
  }

  lemma {:induction false} ReconcilingStep(w: World, a: Action, id: nat)
    requires id in Next(w, a).live && Next(w, a).live[id].Reconciling?
    ensures (id in w.live && w.live[id] == Next(w, a).live[id])
            || (a == DoReadResults(id) && Next(w, a).live[id].seen == w.ledger.results)
  {
  }

  /** What a reconcile under way holds is what it read. */
  lemma {:induction false} ReadBefore(actions: seq<Action>, id: nat) returns (r: nat)
    requires id in Run(START, actions).live && Run(START, actions).live[id].Reconciling?
    ensures r < |actions| && actions[r] == DoReadResults(id)
    ensures Run(START, actions[..r]).ledger.results == Run(START, actions).live[id].seen
  {
    var front, a := actions[..|actions| - 1], actions[|actions| - 1];
    var w := Run(START, front);
    ReconcilingStep(w, a, id);
    if id in w.live && w.live[id] == Next(w, a).live[id] {
      r := ReadBefore(front, id);
      assert front[..r] == actions[..r];
    } else {
      r := |front|;
    }
  }

  lemma {:induction false} ClearedByReopen(w: World, a: Action)
    requires Sound(w) && w.ledger.halted && !Next(w, a).ledger.halted
    ensures a.DoReopen? && a.id in w.live && w.live[a.id].Reconciling?
    ensures Reconcilable(w.live[a.id].seen) && Stands(w.ledger.results, w.live[a.id].seen)
  {
  }

  lemma {:induction false} ReopensLater(actions: seq<Action>, a: Action, r: nat, m: nat)
    requires ReopensOn(actions, r, m)
    ensures ReopensOn(actions + [a], r, m)
  {
    var all := actions + [a];
    assert all[..r] == actions[..r] && all[..m] == actions[..m];
    assert all[r] == actions[r] && all[m] == actions[m];
  }

  lemma {:induction false} ReopensNow(actions: seq<Action>, a: Action) returns (r: nat)
    requires Run(START, actions).ledger.halted && !Next(Run(START, actions), a).ledger.halted
    ensures ReopensOn(actions + [a], r, |actions|)
  {
    EveryRunSound(actions);
    ClearedByReopen(Run(START, actions), a);
    r := ReadBefore(actions, a.id);
    var all := actions + [a];
    assert all[..r] == actions[..r] && all[..|actions|] == actions;
    assert all[r] == actions[r] && all[|actions|] == a;
  }

  lemma {:induction false} HaltClearedWithin(actions: seq<Action>, a: Action, n: nat) returns (r: nat, m: nat)
    requires n <= |actions| && Run(START, actions[..n]).ledger.halted && !Next(Run(START, actions), a).ledger.halted
    ensures n <= m && ReopensOn(actions + [a], r, m)
    decreases |actions|, 1
  {
    if Run(START, actions).ledger.halted {
      r := ReopensNow(actions, a);
      m := |actions|;
    } else {
      r, m := HaltClearedOnlyByReconcile(actions, n);
      ReopensLater(actions, a, r, m);
    }
  }

  /** In every run a halted campaign is open again only after a step that reopened it on in-limit results read before. */
  lemma {:induction false} HaltClearedOnlyByReconcile(actions: seq<Action>, n: nat) returns (r: nat, m: nat)
    requires n <= |actions| && Run(START, actions[..n]).ledger.halted && !Run(START, actions).ledger.halted
    ensures n <= m && ReopensOn(actions, r, m)
    decreases |actions|, 0
  {
    assert actions[..|actions|] == actions;
    var front, a := actions[..|actions| - 1], actions[|actions| - 1];
    assert front + [a] == actions && front[..n] == actions[..n];
    r, m := HaltClearedWithin(front, a, n);
  }

  // Cost

  /** The cost of an answer within the limits, in millionths of a KRW. */
  function Cost(usage: Option<Usage>): nat {
    if WithinLimits(usage) then
      var u := usage.value;
      u.prompt.value * INPUT_KRW_PER_MILLION + Output(u) * OUTPUT_KRW_PER_MILLION
    else 0
  }

  function CallCount(log: seq<Event>): nat {
    if log == [] then 0 else CallCount(log[..|log| - 1]) + if log[|log| - 1].ProviderCall? then 1 else 0
  }

  /** What all in-limit answers cost together, whether or not their invocations lived to file them. */
  function TotalCost(log: seq<Event>): nat {
    if log == [] then 0 else
      var e := log[|log| - 1];
      TotalCost(log[..|log| - 1]) + if e.ProviderCall? then Cost(Answer(e.ending)) else 0
  }

  lemma {:induction false} CostAppend(a: seq<Event>, b: seq<Event>)
    ensures TotalCost(a + b) == TotalCost(a) + TotalCost(b) && CallCount(a + b) == CallCount(a) + CallCount(b)
  {
    if b == [] {
      assert a + b == a;
    } else {
      assert (a + b)[..|a + b| - 1] == a + b[..|b| - 1];
      CostAppend(a, b[..|b| - 1]);
    }
  }

  lemma {:induction false} CostOfOne(e: Event)
    ensures TotalCost([e]) == if e.ProviderCall? then Cost(Answer(e.ending)) else 0
    ensures CallCount([e]) == if e.ProviderCall? then 1 else 0
  {
    assert [e][..0] == [];
  }

  /** Every provider call counts once and adds the cost of its answer, wherever it stands, and nothing else does; an answer
      that is not known to be within the limits adds nothing. */
  lemma {:induction false} TotalCostExactly(a: seq<Event>, e: Event, b: seq<Event>)
    ensures var rest := TotalCost(a) + TotalCost(b);
            TotalCost(a + [e] + b) ==
            if !e.ProviderCall? || !WithinLimits(Answer(e.ending)) then rest
            else var u := Answer(e.ending).value; rest + 3000 * u.prompt.value + 15000 * Output(u)
    ensures CallCount(a + [e] + b) == CallCount(a) + CallCount(b) + if e.ProviderCall? then 1 else 0
  {
    CostAppend(a + [e], b);
    CostAppend(a, [e]);
    CostOfOne(e);
  }

  /** One in-limit answer costs 3000 millionths of a KRW per prompt token and 15000 per candidate or thought, and so at
      most the 108 KRW that one call reserves, which an answer at both limits costs. */
  lemma {:induction false} CostBound(usage: Option<Usage>)
    ensures WithinLimits(usage) ==> Cost(usage) == 3000 * usage.value.prompt.value + 15000 * Output(usage.value)
    ensures Cost(usage) <= RESERVED_KRW * MILLION == 108_000_000
    ensures Cost(Some(Usage(Some(16000), Some(4000), Some(0), None, None))) == 108_000_000
  {
  }

  lemma {:induction false} TotalCostBound(log: seq<Event>)
    ensures TotalCost(log) <= RESERVED_KRW * MILLION * CallCount(log)
  {
    if log != [] {
      TotalCostBound(log[..|log| - 1]);
      if log[|log| - 1].ProviderCall? {
        CostBound(Answer(log[|log| - 1].ending));
      }
    }
  }

  function CalledNames(log: seq<Event>): set<string> {
    set i | 0 <= i < |log| && log[i].ProviderCall? :: log[i].name
  }

  lemma {:induction false} CalledNamesNext(log: seq<Event>, e: Event)
    ensures CalledNames(log + [e]) == if e.ProviderCall? then CalledNames(log) + {e.name} else CalledNames(log)
  {
    var all := log + [e];
    assert all[|log|] == e && forall i | 0 <= i < |log| :: all[i] == log[i];
  }

  lemma {:induction false} CalledNamesCount(log: seq<Event>)
    requires NoRepeats(log)
    ensures |CalledNames(log)| == CallCount(log)
  {
    if log != [] {
      var front, e := log[..|log| - 1], log[|log| - 1];
      assert front + [e] == log;
      CalledNamesCount(front);
      CalledNamesNext(front, e);
    }
  }

  lemma {:induction false} NamesBound(calls: seq<(string, string)>)
    ensures |Names(calls)| <= |calls|
  {
    if calls != [] {
      var front, last := calls[..|calls| - 1], calls[|calls| - 1];
      NamesBound(front);
      assert calls == front + [last];
      assert Names(calls) == Names(front) + {last.0};
    }
  }

  /** In every run there are no more provider calls, and no more results, than reservations; and all in-limit answers,
      including those whose invocations crashed, cost together no more than what was reserved for the calls, and so
      no more than the ceiling. */
  lemma {:induction false} CostWithinReservation(actions: seq<Action>)
    ensures var w := Run(START, actions);
            && |w.ledger.results| <= w.ledger.reserved && CallCount(w.log) <= w.ledger.reserved <= 8
            && TotalCost(w.log) <= 108_000_000 * CallCount(w.log) <= 864_000_000 == MAX_RESERVED_KRW * MILLION
  {
    EveryRunSound(actions);
    var w := Run(START, actions);
    TotalCostBound(w.log);
    CalledNamesCount(w.log);
    NamesBound(w.ledger.calls);
    CalledOnBooks(w.ledger, w.log);
    SubsetSize(CalledNames(w.log), Names(w.ledger.calls));
    SubsetSize(w.ledger.results.Keys, Names(w.ledger.calls));
    assert |w.ledger.results.Keys| == |w.ledger.results|;
  }

  lemma {:induction false} CalledOnBooks(l: Ledger, log: seq<Event>)
    requires forall i | 0 <= i < |log| :: OnBooks(l, log[i].name, log[i].request)
    ensures CalledNames(log) <= Names(l.calls)
  {
    forall i | 0 <= i < |log|
      ensures log[i].name in Names(l.calls)
    {
      assert (log[i].name, log[i].request) in l.calls;
    }
  }

  // Where the protocol stops short of its intent

  predicate InLimitResponse(r: Result) {
    r.status == Responded && WithinLimits(r.usage)
  }

  predicate AllInLimit(results: map<string, Result>) {
    forall k | k in results :: InLimitResponse(results[k])
  }

  /** The invocation may still file an in-limit response. */
  predicate MayAnswer(p: Phase) {
    p.Booked? || p.Ready? || (p.Ended? && InLimitResponse(p.result))
  }

  predicate SomeAnswerPending(live: map<nat, Phase>) {
    exists id | id in live :: MayAnswer(live[id])
  }

  predicate SomeReconciling(live: map<nat, Phase>) {
    exists id | id in live :: live[id].Reconciling?
  }

  /** A reconcile has already read the results; or all results on file are in-limit responses, and there is one
      or one may still be filed. */
  predicate Reopenable(w: World) {
    SomeReconciling(w.live) || (AllInLimit(w.ledger.results) && (w.ledger.results != map[] || SomeAnswerPending(w.live)))
  }

  lemma {:induction false} LiveKept(live: map<nat, Phase>, id: nat, p: Phase)
    requires id in live && (MayAnswer(p) ==> MayAnswer(live[id])) && (p.Reconciling? ==> live[id].Reconciling?)
    ensures SomeAnswerPending(live[id := p]) ==> SomeAnswerPending(live)
    ensures SomeReconciling(live[id := p]) ==> SomeReconciling(live)
  {
  }

  lemma {:induction false} LiveLess(live: map<nat, Phase>, id: nat)
    ensures SomeAnswerPending(live - {id}) ==> SomeAnswerPending(live)
    ensures SomeReconciling(live - {id}) ==> SomeReconciling(live)
  {
  }

  lemma {:induction false} FiledStaysClosed(w: World, id: nat)
    requires w.ledger.halted && !Reopenable(w) && id in w.live && w.live[id].Ended?
    ensures var w' := Next(w, DoRecord(id)); w'.ledger.halted && !Reopenable(w')
  {
    var p := w.live[id];
    LiveLess(w.live, id);
    LiveKept(w.live, id, Halting);
    if p.name !in w.ledger.results {
      var results := w.ledger.results[p.name := p.result];
      assert p.name in results;
      assert AllInLimit(results) ==> InLimitResponse(p.result) && MayAnswer(p);
      assert forall k | k in w.ledger.results && k != p.name :: k in results && results[k] == w.ledger.results[k];
    }
  }

  lemma {:induction false} StaysClosed(w: World, a: Action)
    requires w.ledger.halted && !Reopenable(w)
    ensures Next(w, a).ledger.halted && !Reopenable(Next(w, a))
  {
    if a.DoRecord? && a.id in w.live && w.live[a.id].Ended? {
      FiledStaysClosed(w, a.id);
    } else if !a.DoClose? && Next(w, a) != w {
      LiveLess(w.live, a.id);
      if a.DoSaveRequest? || a.DoCall? {
        LiveKept(w.live, a.id, Next(w, a).live[a.id]);
      }
    }
  }

  lemma {:induction false} StaysClosedForGood(w: World, actions: seq<Action>)
    requires w.ledger.halted && !Reopenable(w)
    ensures Run(w, actions).ledger.halted && !Reopenable(Run(w, actions))
  {
    if actions != [] {
      StaysClosedForGood(w, actions[..|actions| - 1]);
      StaysClosed(Run(w, actions[..|actions| - 1]), actions[|actions| - 1]);
    }
  }

  lemma {:induction false} ReadAndReopen(w: World) returns (actions: seq<Action>)
    requires Reconcilable(w.ledger.results)
    ensures !Run(w, actions).ledger.halted
  {
    var id := FreshId(w.live.Keys);
    actions := [DoReadResults(id), DoReopen(id)];
    RunTwo(w, DoReadResults(id), DoReopen(id));
  }

  /** Calling, if need be, with an answer of no tokens, and filing. */
  lemma {:induction false} AnswerAndFile(w: World, id: nat) returns (actions: seq<Action>)
    requires id in w.live && MayAnswer(w.live[id]) && AllInLimit(w.ledger.results) && w.live[id].name !in w.ledger.results
    ensures Reconcilable(Run(w, actions).ledger.results)
    decreases if w.live[id].Booked? then 2 else if w.live[id].Ready? then 1 else 0
  {
    var a: Action;
    if w.live[id].Ended? {
      actions := [DoRecord(id)];
      RunOne(w, DoRecord(id));
      var l' := Next(w, DoRecord(id)).ledger;
      assert l'.results == w.ledger.results[w.live[id].name := w.live[id].result];
      assert w.live[id].name in l'.results;
      return;
    } else if w.live[id].Ready? {
      a := DoCall(id, Answered(Some(Usage(Some(0), Some(0), Some(0), None, None))));
    } else {
      a := DoSaveRequest(id);
    }
    var rest := AnswerAndFile(Next(w, a), id);
    actions := [a] + rest;
    RunAppend(w, [a], rest);
    RunOne(w, a);
  }

  ghost predicate NoneFiled(w: World) {
    forall id | id in w.live && Carries(w.live[id]) :: w.live[id].name !in w.ledger.results
  }

  lemma {:induction false} Unfiled(w: World)
    requires LiveSound(w)
    ensures NoneFiled(w)
  {
    forall id | id in w.live && Carries(w.live[id])
      ensures w.live[id].name !in w.ledger.results
    {
      assert Pending(w.ledger, w.log, w.live[id]);
    }
  }

  lemma {:induction false} Reopening(w: World) returns (actions: seq<Action>)
    requires NoneFiled(w) && Reopenable(w)
    ensures !Run(w, actions).ledger.halted
  {
    if SomeReconciling(w.live) {
      var id :| id in w.live && w.live[id].Reconciling?;
      actions := [DoReopen(id)];
      RunOne(w, DoReopen(id));
    } else if w.ledger.results != map[] {
      actions := ReadAndReopen(w);
    } else {
      var id :| id in w.live && MayAnswer(w.live[id]);
      actions := AnswerAndReopen(w, id);
    }
  }

  lemma {:induction false} AnswerAndReopen(w: World, id: nat) returns (actions: seq<Action>)
    requires id in w.live && MayAnswer(w.live[id]) && AllInLimit(w.ledger.results) && w.live[id].name !in w.ledger.results
    ensures !Run(w, actions).ledger.halted
  {
    var first := AnswerAndFile(w, id);
    var second := ReadAndReopen(Run(w, first));
    actions := first + second;
    RunAppend(w, first, second);
  }

  /** A closed campaign can be reopened if and only if a reconcile has read its results before, or all results on file
      are in-limit responses and there is one, or an invocation under way may still file one. */
  lemma {:induction false} CloseThenReconcile(w: World)
    requires Sound(w)
    ensures (exists actions: seq<Action> :: !Run(Next(w, DoClose), actions).ledger.halted) <==> Reopenable(w)
  {
    var closed := Next(w, DoClose);
    Unfiled(w);
    assert Reopenable(closed) <==> Reopenable(w);
    if Reopenable(w) {
      var actions := Reopening(closed);
    } else {
      forall actions: seq<Action>
        ensures Run(closed, actions).ledger.halted
      {
        StaysClosedForGood(closed, actions);
      }
    }
  }

  lemma {:induction false} RunTwo(w: World, a: Action, b: Action)
    ensures Run(w, [a, b]) == Next(Next(w, a), b)
  {
    assert [a, b][..1] == [a];
    RunOne(w, a);
  }

  lemma {:induction false} RunThree(w: World, a: Action, b: Action, c: Action)
    ensures Run(w, [a, b, c]) == Next(Next(Next(w, a), b), c)
  {
    assert [a, b, c][..2] == [a, b] && [a, b][..1] == [a] && [a][..0] == [];
    assert Run(w, [a]) == Next(Run(w, []), a);
    assert Run(w, [a, b]) == Next(Run(w, [a]), b);
  }

  /** Every result not seen is an in-limit response. */
  predicate LaterInLimit(results: map<string, Result>, seen: map<string, Result>) {
    forall k | k in results && k !in seen :: InLimitResponse(results[k])
  }

  /** A reconcile reopens a campaign all of whose results are in-limit responses
      exactly when those filed since it read the directory are. */
  lemma {:induction false} ReopenedOnWhatItRead(w: World, id: nat)
    requires LiveSound(w) && id in w.live && w.live[id].Reconciling?
    ensures !Next(w, DoReopen(id)).ledger.halted
    ensures Reconcilable(w.ledger.results) <==> LaterInLimit(w.ledger.results, w.live[id].seen)
  {
    SnapshotOf(w, id);
    SnapshotStands(w.ledger.results, w.live[id].seen);
  }

  lemma {:induction false} SnapshotOf(w: World, id: nat)
    requires LiveSound(w) && id in w.live && w.live[id].Reconciling?
    ensures Reconcilable(w.live[id].seen) && Stands(w.ledger.results, w.live[id].seen)
  {
    assert Snapshot(w.ledger, w.live[id]);
  }

  lemma {:induction false} SnapshotStands(results: map<string, Result>, seen: map<string, Result>)
    requires Reconcilable(seen) && Stands(results, seen)
    ensures Reconcilable(results) <==> LaterInLimit(results, seen)
  {
    var k :| k in seen;
    assert k in results;
  }

  /** One probe from reservation to result. */
  function ProbeSteps(id: nat, name: string, request: string, ending: Ending): seq<Action> {
    [DoReserve(id, name, request), DoSaveRequest(id), DoCall(id, ending), DoRecord(id)]
  }

  lemma {:induction false} RunAppend(w: World, a: seq<Action>, b: seq<Action>)
    ensures Run(w, a + b) == Run(Run(w, a), b)
  {
    if b == [] {
      assert a + b == a;
    } else {
      assert (a + b)[..|a + b| - 1] == a + b[..|b| - 1];
      RunAppend(w, a, b[..|b| - 1]);
    }
  }

  lemma {:induction false} RunOne(w: World, a: Action)
    ensures Run(w, [a]) == Next(w, a)
  {
  }

  lemma {:induction false} RunFour(w: World, a: Action, b: Action, c: Action, d: Action)
    ensures Run(w, [a, b, c, d]) == Next(Next(Next(Next(w, a), b), c), d)
  {
    RunThree(w, a, b, c);
    assert [a, b, c, d][..3] == [a, b, c];
  }

  lemma {:induction false} RunProbe(w: World, id: nat, name: string, request: string, ending: Ending)
    requires id !in w.live && MayReserve(w.ledger, name, request) && name !in w.ledger.results
    ensures var r, w' := Judged(ending), Run(w, ProbeSteps(id, name, request, ending));
            && w'.ledger == Reserve(w.ledger, name, request).(results := w.ledger.results[name := r])
            && w'.live == if r.halts then w.live[id := Halting] else w.live
  {
    var a := ProbeSteps(id, name, request, ending);
    RunFour(w, a[0], a[1], a[2], a[3]);
    var w1 := Next(w, a[0]);
    assert w1.live == w.live[id := Booked(name, request)] && w1.ledger == Reserve(w.ledger, name, request);
    var w2 := Next(w1, a[1]);
    assert w2.live == w.live[id := Ready(name, request)] && w2.ledger == w1.ledger;
    var w3 := Next(w2, a[2]);
    assert w3.live == w.live[id := Ended(name, request, Judged(ending))] && w3.ledger == w1.ledger;
    assert w3.live - {id} == w.live;
  }

  /** From any reconcilable campaign, a reconcile that read before a probe whose result halts it, and clears
      after it, leaves the campaign open with that result on file. */
  lemma {:induction false} StaleReconcileReopens(
    w: World, reader: nat, probe: nat, name: string, request: string, ending: Ending)
    returns (w': World)
    requires Sound(w) && Reconcilable(w.ledger.results) && reader !in w.live && probe !in w.live && reader != probe
    requires MayReserve(w.ledger, name, request) && Judged(ending).halts
    ensures w' == Run(w, [DoReadResults(reader)] + ProbeSteps(probe, name, request, ending) +
                         [DoHalt(probe), DoReopen(reader)])
    ensures !w'.ledger.halted && name in w'.ledger.results && w'.ledger.results[name].halts
  {
    var w1 := Next(w, DoReadResults(reader));
    assert w1 == w.(live := w.live[reader := Reconciling(w.ledger.results)]);
    ReserveLedger(w.ledger, name, request);
    RunProbe(w1, probe, name, request, ending);
    var w2 := Run(w1, ProbeSteps(probe, name, request, ending));
    RunAround(w, DoReadResults(reader), ProbeSteps(probe, name, request, ending), DoHalt(probe), DoReopen(reader));
    w' := Next(Next(w2, DoHalt(probe)), DoReopen(reader));
    HaltThenReopen(w2, probe, reader);
  }

  lemma {:induction false} HaltThenReopen(w: World, probe: nat, reader: nat)
    requires probe in w.live && w.live[probe].Halting? && reader in w.live && w.live[reader].Reconciling?
    ensures Next(Next(w, DoHalt(probe)), DoReopen(reader)).ledger == w.ledger.(halted := false)
  {
  }

  lemma {:induction false} RunAround(w: World, a: Action, inner: seq<Action>, b: Action, c: Action)
    ensures Run(w, [a] + inner + [b, c]) == Next(Next(Run(Next(w, a), inner), b), c)
  {
    RunAppend(w, [a] + inner, [b, c]);
    RunAppend(w, [a], inner);
    RunOne(w, a);
    assert [b, c] == [b] + [c];
    var w' := Run(Next(w, a), inner);
    RunAppend(w', [b], [c]);
    RunOne(w', b);
    RunOne(Next(w', b), c);
  }

  // What halts a campaign

  /** A whole probe with its halting step leaves the campaign halted if and only if the usage of its answer, once looked
      at, is unknown or over a limit, or its failure is not a 400; and a halted campaign reserves nothing. */
  lemma {:induction false} WhatHalts(w: World, id: nat, name: string, request: string, ending: Ending)
    requires Sound(w) && id !in w.live && MayReserve(w.ledger, name, request)
    ensures var w' := Run(w, ProbeSteps(id, name, request, ending) + [DoHalt(id)]);
            && (w'.ledger.halted <==> HaltsOn(ending))
            && (w'.ledger.halted ==> forall n, r :: !MayReserve(w'.ledger, n, r))
            && id !in w'.live && w'.ledger.reserved == w.ledger.reserved + 1
  {
    ReserveLedger(w.ledger, name, request);
    JudgedExactly(ending);
    RunProbe(w, id, name, request, ending);
    RunAppend(w, ProbeSteps(id, name, request, ending), [DoHalt(id)]);
    RunOne(Run(w, ProbeSteps(id, name, request, ending)), DoHalt(id));
  }

  predicate Starts(a: Action, id: nat) {
    (a.DoReserve? || a.DoReadResults?) && a.id == id
  }

  predicate NoneStarts(actions: seq<Action>, id: nat) {
    forall i | 0 <= i < |actions| :: !Starts(actions[i], id)
  }

  lemma {:induction false} EndedStays(w: World, actions: seq<Action>, id: nat)
    requires id in w.live && w.live[id].Ended? && !w.live[id].result.halts && NoneStarts(actions, id)
    ensures id in Run(w, actions).live ==> Run(w, actions).live[id] == w.live[id]
  {
    if actions != [] {
      var front, a := actions[..|actions| - 1], actions[|actions| - 1];
      EndedStays(w, front, id);
      assert !Starts(a, id);
    }
  }

  /** A call that was aborted before its usage was looked at never halts the campaign: whatever happens around it, no
      further step of its invocation sets the halt. */
  lemma {:induction false} AbortNeverHalts(w: World, id: nat, ending: Ending, actions: seq<Action>, a: Action)
    requires ending.Aborted? || (ending.AbortedAfterAnswer? && !ending.judged)
    requires id in w.live && w.live[id].Ready? && NoneStarts(actions, id) && !a.DoClose? && a.id == id && !Starts(a, id)
    ensures var w' := Run(Next(w, DoCall(id, ending)), actions);
            Next(w', a).ledger.halted == w'.ledger.halted
  {
    EndedStays(Next(w, DoCall(id, ending)), actions, id);
  }
}
