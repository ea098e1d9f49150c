/** A pre-registered evaluation campaign: slots claimed in order, an append-only event log, and budgets over both. */
module EvaluationCampaign {
  import opened Strings

  datatype State = OPENED | STARTED | SUCCEEDED | FAILED

  datatype Spend = Spend(attempts: nat, cost: real)

  const NOTHING := Spend(0, 0.0)

  /** One line of the event log; the spend is present when both its numbers were observed. */
  datatype Event = Event(slot: nat, state: State, row: Option<nat>, spend: Option<Spend>)
  {
    predicate Terminal() {
      state == SUCCEEDED || state == FAILED
    }
  }

  /** What the content of a campaign file fixes. */
  datatype Plan = Plan(slots: nat, attemptsPerRun: nat, attemptsTotal: nat, cost: real)

  /** One slot of the campaign with this content hash, as validation returns it. */
  datatype CampaignRun = CampaignRun(hash: string, slot: nat)

  /** The lock directory beside the campaign file. */
  datatype Folder = Folder(master: Option<string>, claims: set<nat>, events: seq<Event>)

  // The log

  /** The last terminal event of each slot. */
  function Terminals(events: seq<Event>): map<nat, Event> {
    if events == [] then map[] else
      var before, e := Terminals(events[..|events| - 1]), events[|events| - 1];
      if e.Terminal() then before[e.slot := e] else before
  }

  function States(events: seq<Event>): seq<State> {
    seq(|events|, i requires 0 <= i < |events| => events[i].state)
  }

  /** The states a slot went through, in order. */
  function History(events: seq<Event>, slot: nat): seq<State> {
    if events == [] then [] else
      var before, e := History(events[..|events| - 1], slot), events[|events| - 1];
      if e.slot == slot then before + [e.state] else before
  }

  function Plus(a: Spend, b: Spend): Spend {
    Spend(a.attempts + b.attempts, a.cost + b.cost)
  }

  function Known(e: Event): Spend {
    if e.spend.Some? then e.spend.value else NOTHING
  }

  function Without(t: map<nat, Event>, k: nat): (r: map<nat, Event>)
    ensures r.Keys == t.Keys - {k}
  {
    map j | j in t && j != k :: t[j]
  }

  /** What the given terminal events are known to have spent together. */
  ghost function Total(t: map<nat, Event>): Spend
    decreases |t.Keys|
  {
    if t == map[] then NOTHING else
      var k :| k in t;
      Plus(Total(Without(t, k)), Known(t[k]))
  }

  lemma {:induction false} PlusSwap(a: Spend, b: Spend, c: Spend)
    ensures Plus(Plus(a, b), c) == Plus(Plus(a, c), b)
  {
  }

  lemma {:induction false} TotalPick(t: map<nat, Event>) returns (k: nat)
    requires t != map[]
    ensures k in t && Total(t) == Plus(Total(Without(t, k)), Known(t[k]))
  {
    k :| k in t && Total(t) == Plus(Total(Without(t, k)), Known(t[k]));
  }

  /** The total does not depend on the order of summation. */
  lemma {:induction false} TotalLess(t: map<nat, Event>, k: nat)
    requires k in t
    ensures Total(t) == Plus(Total(Without(t, k)), Known(t[k]))
    decreases |t.Keys|
  {
    var first := TotalPick(t);
    if first != k {
      TotalLess(Without(t, first), k);
      TotalLess(Without(t, k), first);
      assert Without(Without(t, first), k) == Without(Without(t, k), first);
      PlusSwap(Total(Without(Without(t, k), first)), Known(t[first]), Known(t[k]));
    }
  }

  predicate AllKnown(t: map<nat, Event>) {
    forall k | k in t :: t[k].spend.Some?
  }

  /** The slots before this one. */
  function Required(slot: nat): (slots: set<nat>)
    ensures forall i :: i in slots <==> 1 <= i < slot
  {
    if slot <= 1 then {} else Required(slot - 1) + {slot - 1}
  }

  function Only(t: map<nat, Event>, slots: set<nat>): map<nat, Event> {
    map k | k in t && k in slots :: t[k]
  }

  function Earlier(events: seq<Event>, slot: nat): map<nat, Event> {
    Only(Terminals(events), Required(slot))
  }

  // Claiming a slot

  /** The earlier slots have all ended, their spending is known, and it leaves something of both budgets. */
  ghost predicate InTurn(events: seq<Event>, plan: Plan, slot: nat) {
    var t := Earlier(events, slot);
    && Required(slot) <= Terminals(events).Keys && AllKnown(t)
    && Total(t).attempts < plan.attemptsTotal && Total(t).cost < plan.cost
  }

  predicate SameCampaign(f: Folder, run: CampaignRun) {
    f.master in {None, Some(run.hash)}
  }

  /** The first run to get here fixes which campaign the folder belongs to. */
  function Locked(f: Folder, run: CampaignRun): Folder {
    if f.master.None? then f.(master := Some(run.hash)) else f
  }

  function Claimed(f: Folder, slot: nat): Folder {
    f.(claims := f.claims + {slot})
  }

  function Appended(f: Folder, e: Event): Folder {
    f.(events := f.events + [e])
  }

  // The budget after the calls

  /** What the usage ledger reports for one run. */
  datatype Rollup = Rollup(attempts: nat, cost: Option<real>)

  function Observed(cost: Option<Rollup>): Option<Spend> {
    if cost.Some? && cost.value.cost.Some? then Some(Spend(cost.value.attempts, cost.value.cost.value)) else None
  }

  /** A spend is observed if and only if there is a rollup with a cost, and then it is what the rollup says. */
  lemma {:induction false} ObservedExactly(cost: Option<Rollup>, spend: Spend)
    ensures Observed(cost) == Some(spend) <==>
            cost.Some? && cost.value.attempts == spend.attempts && cost.value.cost == Some(spend.cost)
  {
  }

  /** The run kept to its own limit, and together with all other slots to the limits of the campaign. */
  ghost predicate WithinBudget(events: seq<Event>, plan: Plan, slot: nat, cost: Option<Rollup>) {
    var spend, others := Observed(cost), Without(Terminals(events), slot);
    && spend.Some? && AllKnown(others)
    && spend.value.attempts <= plan.attemptsPerRun
    && Total(others).attempts + spend.value.attempts <= plan.attemptsTotal
    && Total(others).cost + spend.value.cost <= plan.cost
  }

  // One evaluation

  datatype RowStatus = RUNNING | ROW_FAILED | DONE

  /** The invocation: is the store held out, was opening it allowed, and for which slot. */
  datatype Invocation = Invocation(holdout: bool, allow: bool, run: Option<CampaignRun>)

  predicate Guarded(inv: Invocation) {
    inv.holdout ==> inv.allow && inv.run.Some?
  }

  datatype Truth = Unreadable | Bytes(matches: bool, wellFormed: bool)

  datatype Execution = RaisedEarly | Rolled(cost: Option<Rollup>, raises: bool)

  /** How everything outside the script goes during one evaluation. */
  datatype Circumstances = Circumstances(
    sourcesMatch: bool, truth: Truth, storeKnown: bool, announced: bool, execution: Execution, closed: bool, reported: bool)

  predicate Ended(history: seq<State>) {
    history != [] && history[|history| - 1] in {SUCCEEDED, FAILED}
  }

  /** May a slot with this history go on to this state? */
  predicate Allowed(history: seq<State>, next: State) {
    match next
    case OPENED => history == []
    case STARTED => history == [OPENED]
    case SUCCEEDED => history == [OPENED, STARTED]
    case FAILED => !Ended(history)
  }

  predicate Lifecycle(history: seq<State>) {
    forall i | 0 <= i < |history| :: Allowed(history[..i], history[i])
  }

  /** A campaign run also knows the hash its truth has to have. */
  predicate TruthUsable(run: Option<CampaignRun>, t: Truth) {
    t.Bytes? && t.wellFormed && (run.Some? ==> t.matches)
  }

  predicate Opens(run: Option<CampaignRun>, c: Circumstances) {
    c.sourcesMatch && TruthUsable(run, c.truth)
  }

  /** What became of one evaluation. */
  datatype Outcome = Outcome(readTruth: bool, executed: bool)

  /** The start of a campaign run has to be logged. */
  predicate Announced(run: Option<CampaignRun>, c: Circumstances) {
    run.Some? ==> c.announced
  }

  /** The run goes through: its start is logged, the execution raises nothing, and a campaign run keeps its budget. */
  ghost predicate Completes(events: seq<Event>, plan: Plan, run: Option<CampaignRun>, c: Circumstances) {
    && Announced(run, c) && c.execution.Rolled? && !c.execution.raises
    && (run.Some? ==> WithinBudget(events, plan, run.value.slot, c.execution.cost))
  }

  /** The row of a run that is left RUNNING: its start could not be logged, or its failure could not be written. */
  predicate LeftRunning(run: Option<CampaignRun>, c: Circumstances, executed: bool) {
    !Announced(run, c) || (!executed && !c.closed)
  }

  /** Outcomes that leave a claimed slot without a terminal event: the store or its run row is missing, the row is left
      running, or the report of a completed run failed. */
  predicate Lost(run: Option<CampaignRun>, c: Circumstances, executed: bool) {
    Opens(run, c) && (!c.storeKnown || LeftRunning(run, c, executed) || (executed && !c.reported))
  }

  /** What the terminal event of a slot records as spent: nothing before the truth is opened, then what was observed. */
  function SpentBy(run: Option<CampaignRun>, c: Circumstances): Option<Spend> {
    if !Opens(run, c) then Some(NOTHING) else if c.execution.Rolled? then Observed(c.execution.cost) else None
  }

  /** What the earlier slots spent, and this, is known and below both budgets. */
  ghost predicate Leaves(events: seq<Event>, plan: Plan, slot: nat, spend: Option<Spend>) {
    var before := Total(Earlier(events, slot));
    spend.Some? && before.attempts + spend.value.attempts < plan.attemptsTotal && before.cost + spend.value.cost < plan.cost
  }

  ghost predicate MayClaim(f: Folder, plan: Plan, run: CampaignRun) {
    SameCampaign(f, run) && InTurn(f.events, plan, run.slot) && run.slot !in f.claims
  }

  /** The campaign folder and the table of evaluation runs, as one evaluation drives them. */
  class Campaign {
    var master: Option<string>
    var claims: set<nat>
    var events: seq<Event>
    var rows: seq<RowStatus>

    constructor ()
      ensures Now() == Folder(None, {}, []) && rows == []
    {
      master, claims, events, rows := None, {}, [], [];
    }

    ghost function Now(): Folder
      reads this
    {
      Folder(master, claims, events)
    }

    method ReadTerminals() returns (t: map<nat, Event>)
      ensures t == Terminals(events)
    {
      t := map[];
      for i := 0 to |events|
        invariant t == Terminals(events[..i])
      {
        assert events[..i + 1][..i] == events[..i];
        if events[i].Terminal() {
          t := t[events[i].slot := events[i]];
        }
      }
      assert events[..|events|] == events;
    }

    method Sum(t: map<nat, Event>) returns (total: Option<Spend>)
      ensures total == if AllKnown(t) then Some(Total(t)) else None
    {
      var sum := NOTHING;
      var left := t;
      while left != map[]
        invariant AllKnown(t) <==> AllKnown(left)
        invariant Total(t) == Plus(Total(left), sum)
        decreases |left.Keys|
      {
        var k :| k in left;
        if left[k].spend.None? {
          return None;
        }
        SumStep(left, k, sum);
        sum := Plus(left[k].spend.value, sum);
        left := Without(left, k);
      }
      total := Some(sum);
    }

    method Claim(run: CampaignRun, plan: Plan) returns (ok: bool)
      modifies this`master, this`claims
      ensures ok <==> MayClaim(old(Now()), plan, run)
      ensures Now() == if ok then Claimed(Locked(old(Now()), run), run.slot) else Locked(old(Now()), run)
    {
      if master.None? {
        master := Some(run.hash);
      } else if master.value != run.hash {
        return false;
      }
      var t := ReadTerminals();
      if !(Required(run.slot) <= t.Keys) {
        return false;
      }
      var prior := Sum(Only(t, Required(run.slot)));
      ok := prior.Some? && prior.value.attempts < plan.attemptsTotal && prior.value.cost < plan.cost
            && run.slot !in claims;
      if ok {
        claims := claims + {run.slot};
      }
    }

    method EnforceBudget(run: CampaignRun, plan: Plan, cost: Option<Rollup>) returns (ok: bool)
      ensures ok <==> WithinBudget(events, plan, run.slot, cost)
    {
      var spend := Observed(cost);
      if spend.None? || spend.value.attempts > plan.attemptsPerRun {
        return false;
      }
      var t := ReadTerminals();
      var others := Sum(Without(t, run.slot));
      ok := others.Some?
            && others.value.attempts + spend.value.attempts <= plan.attemptsTotal
            && others.value.cost + spend.value.cost <= plan.cost;
    }

    /** Evaluations outside a campaign log nothing. */
    method Append(run: Option<CampaignRun>, state: State, row: Option<nat>, spend: Option<Spend>)
      modifies this`events
      ensures events == old(events) + Line(run, state, row, spend)
    {
      if run.Some? {
        events := events + [Event(run.value.slot, state, row, spend)];
      }
    }

    /** From the check of the sources to the opening of a well-formed truth; every failure is logged. */
    method OpenTruth(run: Option<CampaignRun>, c: Circumstances) returns (read: bool, ok: bool, ghost added: seq<Event>)
      modifies this`events
      ensures events == old(events) + added && OfRun(added, run)
      ensures read <==> c.sourcesMatch && c.truth.Bytes?
      ensures ok <==> Opens(run, c)
      ensures ok ==> read && (run.Some? ==> added == [Event(run.value.slot, OPENED, None, None)])
      ensures !ok && run.Some? ==>
                var failed := Event(run.value.slot, FAILED, None, Some(NOTHING));
                added == if read && c.truth.matches then [Event(run.value.slot, OPENED, None, None), failed] else [failed]
    {
      read, ok, added := false, false, [];
      if !c.sourcesMatch || c.truth.Unreadable? {
        added := Line(run, FAILED, None, Some(NOTHING));
        Append(run, FAILED, None, Some(NOTHING));
        return;
      }
      read := true;
      if run.Some? && !c.truth.matches {
        added := Line(run, FAILED, None, Some(NOTHING));
        Append(run, FAILED, None, Some(NOTHING));
        return;
      }
      added := Line(run, OPENED, None, None);
      Append(run, OPENED, None, None);
      ok := c.truth.wellFormed;
      if !ok {
        added := added + Line(run, FAILED, None, Some(NOTHING));
        Append(run, FAILED, None, Some(NOTHING));
      }
    }

    /** From the run row to the report; a failing execution closes the row before it is logged. */
    method RunRow(run: Option<CampaignRun>, plan: Plan, c: Circumstances) returns (executed: bool, ghost added: seq<Event>)
      modifies this`events, this`rows
      ensures events == old(events) + added && OfRun(added, run)
      ensures executed <==> Completes(old(events), plan, run, c)
      ensures rows == old(rows) + [if LeftRunning(run, c, executed) then RUNNING else if executed then DONE else ROW_FAILED]
      ensures run.Some? ==>
                var (slot, row) := (run.value.slot, Some(|old(rows)|));
                var spend := if c.execution.Rolled? then Observed(c.execution.cost) else None;
                var started := Event(slot, STARTED, row, None);
                added == if !c.announced then []
                         else if executed && c.reported then [started, Event(slot, SUCCEEDED, row, spend)]
                         else if !executed && c.closed then [started, Event(slot, FAILED, row, spend)]
                         else [started]
    {
      var row := |rows|;
      executed, added := false, [];
      rows := rows + [RUNNING];
      if run.Some? && !c.announced {
        return;
      }
      added := Line(run, STARTED, Some(row), None);
      LineKeepsTerminals(events, run, STARTED, Some(row));
      Append(run, STARTED, Some(row), None);
      var spend := None;
      if c.execution.Rolled? {
        var ok := true;
        if run.Some? {
          spend := Observed(c.execution.cost);
          ok := EnforceBudget(run.value, plan, c.execution.cost);
        }
        executed := ok && !c.execution.raises;
      }
      if !executed && !c.closed {
        return;
      }
      rows := rows[row := if executed then DONE else ROW_FAILED];
      if !executed || c.reported {
        var end := if executed then SUCCEEDED else FAILED;
        added := added + Line(run, end, Some(row), spend);
        Append(run, end, Some(row), spend);
      }
    }

    /** An evaluation that may read its truth: its events form a lifecycle, and end it unless the outcome is lost. */
    method Proceed(run: Option<CampaignRun>, plan: Plan, c: Circumstances) returns (out: Outcome, ghost added: seq<Event>)
      modifies this`events, this`rows
      ensures events == old(events) + added && OfRun(added, run)
      ensures out.readTruth <==> c.sourcesMatch && c.truth.Bytes?
      ensures out.executed <==> Opens(run, c) && c.storeKnown && Completes(old(events), plan, run, c)
      ensures run.Some? ==> Lifecycle(States(added)) && (Ended(States(added)) <==> !Lost(run, c, out.executed))
      ensures run.Some? && Ended(States(added)) ==> ClosesWith(added, SpentBy(run, c))
      ensures rows == old(rows) + if !Opens(run, c) || !c.storeKnown then []
                                  else [if LeftRunning(run, c, out.executed) then RUNNING
                                        else if out.executed then DONE else ROW_FAILED]
    {
      var read, ok, opening := OpenTruth(run, c);
      out := Outcome(read, false);
      added := opening;
      if run.Some? {
        OpeningLife(run.value.slot, opening, read && c.truth.matches, ok);
      }
      if ok && c.storeKnown {
        OpeningKeepsTerminals(old(events), opening, run);
        var executed, running := RunRow(run, plan, c);
        out := out.(executed := executed);
        added := added + running;
        if run.Some? {
          RunningLife(opening, running, SpentBy(run, c), c.announced, executed, if executed then c.reported else c.closed);
        }
      }
    }

    /** Any undisturbed evaluation: a truth is read only when the guard lets it, and within a campaign only under a slot
        claimed by this very evaluation; without the claim nothing is logged and no row is made, and outside a campaign
        nothing is claimed or logged at all. */
    method Evaluate(inv: Invocation, plan: Plan, c: Circumstances) returns (out: Outcome, ghost added: seq<Event>)
      modifies this
      ensures var (run, entered) := (inv.run, MayProceed(old(Now()), plan, inv));
              && claims == (if entered && run.Some? then old(claims) + {run.value.slot} else old(claims))
              && (out.readTruth <==> entered && c.sourcesMatch && c.truth.Bytes?)
              && (out.executed <==> entered && Opens(run, c) && c.storeKnown && Completes(old(events), plan, run, c))
              && (!entered ==> added == [] && rows == old(rows))
              && (run.None? ==> added == [])
              && master == (if Guarded(inv) && run.Some? && old(master).None? then Some(run.value.hash) else old(master))
              && (entered && run.Some? ==> (Ended(States(added)) <==> !Lost(run, c, out.executed)))
              && (entered && run.Some? && Ended(States(added)) ==> ClosesWith(added, SpentBy(run, c)))
              && (entered && run.Some? && Ended(States(added)) && run.value.slot >= 1 ==>
                    var next := CampaignRun(run.value.hash, run.value.slot + 1);
                    MayClaim(Now(), plan, next) <==>
                    next.slot !in claims && Leaves(old(events), plan, run.value.slot, SpentBy(run, c)))
      ensures events == old(events) + added && Lifecycle(States(added))
    {
      out, added := Outcome(false, false), [];
      if !Guarded(inv) {
        return;
      }
      var entered := true;
      if inv.run.Some? {
        entered := Claim(inv.run.value, plan);
      }
      if entered {
        out, added := Proceed(inv.run, plan, c);
        if inv.run.Some? && Ended(States(added)) && inv.run.value.slot >= 1 {
          NextAfter(old(events), added, plan, inv.run.value.slot, SpentBy(inv.run, c));
        }
      }
    }
  }

  /** One line of the log, for a campaign run. */
  function Line(run: Option<CampaignRun>, state: State, row: Option<nat>, spend: Option<Spend>): seq<Event> {
    if run.Some? then [Event(run.value.slot, state, row, spend)] else []
  }

  /** The events are of this run; outside a campaign there are none. */
  predicate OfRun(added: seq<Event>, run: Option<CampaignRun>) {
    if run.Some? then forall e | e in added :: e.slot == run.value.slot else added == []
  }

  /** The last of these events, and no other, is terminal, and records this as spent. */
  predicate ClosesWith(added: seq<Event>, spend: Option<Spend>) {
    && added != [] && added[|added| - 1].Terminal() && added[|added| - 1].spend == spend
    && forall i | 0 <= i < |added| - 1 :: !added[i].Terminal()
  }

  ghost predicate MayProceed(f: Folder, plan: Plan, inv: Invocation) {
    Guarded(inv) && (inv.run.Some? ==> MayClaim(f, plan, inv.run.value))
  }

  lemma {:induction false} LineKeepsTerminals(events: seq<Event>, run: Option<CampaignRun>, state: State, row: Option<nat>)
    requires state in {OPENED, STARTED}
    ensures Terminals(events + Line(run, state, row, None)) == Terminals(events)
  {
    if run.Some? {
      TerminalsKept(events, Event(run.value.slot, state, row, None));
    } else {
      assert events + [] == events;
    }
  }

  /** Opening a truth changes nothing about what has been spent. */
  lemma {:induction false} OpeningKeepsTerminals(events: seq<Event>, opening: seq<Event>, run: Option<CampaignRun>)
    requires if run.Some? then States(opening) == [OPENED] else opening == []
    ensures Terminals(events + opening) == Terminals(events)
  {
    if run.Some? {
      assert |opening| == |States(opening)| && States(opening)[0] == opening[0].state;
      assert opening == [opening[0]];
      TerminalsKept(events, opening[0]);
    } else {
      assert events + [] == events;
    }
  }

  lemma {:induction false} TerminalsKept(events: seq<Event>, e: Event)
    requires !e.Terminal()
    ensures Terminals(events + [e]) == Terminals(events)
  {
    assert (events + [e])[..|events|] == events;
  }

  lemma {:induction false} AddedTerminals(events: seq<Event>, added: seq<Event>)
    requires forall i | 0 <= i < |added| :: !added[i].Terminal()
    ensures Terminals(events + added) == Terminals(events)
  {
    if added == [] {
      assert events + added == events;
    } else {
      var front, e := added[..|added| - 1], added[|added| - 1];
      AddedTerminals(events, front);
      TerminalsKept(events + front, e);
      assert events + added == events + front + [e];
    }
  }

  lemma {:induction false} WithoutAdded(t: map<nat, Event>, e: Event)
    requires e.slot !in t
    ensures Without(t[e.slot := e], e.slot) == t
  {
  }

  lemma {:induction false} TotalMore(t: map<nat, Event>, e: Event)
    requires e.slot !in t
    ensures Total(t[e.slot := e]) == Plus(Total(t), Known(e))
  {
    WithoutAdded(t, e);
    TotalLess(t[e.slot := e], e.slot);
  }

  lemma {:induction false} KnownMore(t: map<nat, Event>, e: Event)
    requires e.slot !in t
    ensures AllKnown(t[e.slot := e]) <==> AllKnown(t) && e.spend.Some?
  {
    var t' := t[e.slot := e];
    assert t'[e.slot] == e && forall k | k in t :: k in t' && t'[k] == t[k];
  }

  lemma {:induction false} OnlyMore(t: map<nat, Event>, slots: set<nat>, e: Event)
    requires e.slot !in slots
    ensures Only(t[e.slot := e], slots + {e.slot}) == Only(t, slots)[e.slot := e]
  {
  }

  lemma {:induction false} EndTerminals(events: seq<Event>, added: seq<Event>, spend: Option<Spend>) returns (e: Event)
    requires ClosesWith(added, spend)
    ensures e == added[|added| - 1] && Terminals(events + added) == Terminals(events)[e.slot := e]
  {
    var front := added[..|added| - 1];
    e := added[|added| - 1];
    AddedTerminals(events, front);
    assert events + added == events + front + [e];
    assert (events + front + [e])[..|events + front|] == events + front;
  }

  /** After a slot in turn has ended, the next is in turn if and only if what was spent by then is known and leaves
      something of both budgets. */
  lemma {:induction false} NextAfter(events: seq<Event>, added: seq<Event>, plan: Plan, slot: nat, spend: Option<Spend>)
    requires slot >= 1 && InTurn(events, plan, slot) && ClosesWith(added, spend) && forall e | e in added :: e.slot == slot
    ensures InTurn(events + added, plan, slot + 1) <==> Leaves(events, plan, slot, spend)
  {
    var e := EndTerminals(events, added, spend);
    assert e in added;
    assert Required(slot + 1) == Required(slot) + {slot};
    OnlyMore(Terminals(events), Required(slot), e);
    TotalMore(Earlier(events, slot), e);
    KnownMore(Earlier(events, slot), e);
  }

  lemma {:induction false} StatesOne(a: Event)
    ensures States([a]) == [a.state]
  {
  }

  lemma {:induction false} StatesTwo(a: Event, b: Event)
    ensures States([a, b]) == [a.state, b.state]
  {
  }

  lemma {:induction false} LifecycleOpen(h: seq<State>)
    requires h in {[OPENED], [FAILED], [OPENED, FAILED]}
    ensures Lifecycle(h)
  {
  }

  /** The events of an opening are a lifecycle, ended, with nothing spent, if it failed. */
  lemma {:induction false} OpeningLife(slot: nat, added: seq<Event>, matched: bool, ok: bool)
    requires var (open, failed) := (Event(slot, OPENED, None, None), Event(slot, FAILED, None, Some(NOTHING)));
             added == if ok then [open] else if matched then [open, failed] else [failed]
    ensures Lifecycle(States(added)) && (Ended(States(added)) <==> !ok) && (!ok ==> ClosesWith(added, Some(NOTHING)))
  {
    StatesOne(added[0]);
    if |added| == 2 {
      StatesTwo(added[0], added[1]);
    }
    LifecycleOpen(States(added));
  }

  lemma {:induction false} LifecycleRun(h: seq<State>)
    requires h in {[], [STARTED], [STARTED, FAILED], [STARTED, SUCCEEDED]}
    ensures Lifecycle([OPENED] + h)
  {
    var all := [OPENED] + h;
    forall i | 0 <= i < |all|
      ensures Allowed(all[..i], all[i])
    {
      assert i == 2 ==> all[..i] == [OPENED, STARTED];
      assert i == 1 ==> all[..i] == [OPENED];
    }
  }

  /** The events of a run go on with the lifecycle, and end it, with what is settled, if the end was logged. */
  lemma {:induction false} RunningLife(
    opening: seq<Event>, running: seq<Event>, spend: Option<Spend>, announced: bool, executed: bool, logged: bool)
    requires |opening| == 1 && opening[0].state == OPENED
    requires if !announced then running == []
             else |running| == (if logged then 2 else 1) && running[0].state == STARTED
                  && (logged ==> running[1].state == (if executed then SUCCEEDED else FAILED) && running[1].spend == spend)
    ensures var added := opening + running;
            && Lifecycle(States(added)) && (Ended(States(added)) <==> announced && logged)
            && (announced && logged ==> ClosesWith(added, spend))
  {
    var added := opening + running;
    if announced && logged {
      StatesTwo(running[0], running[1]);
      assert running == [running[0], running[1]];
    } else if announced {
      StatesOne(running[0]);
      assert running == [running[0]];
    }
    assert States(added) == [OPENED] + States(running);
    LifecycleRun(States(running));
  }

  lemma {:induction false} SumStep(t: map<nat, Event>, k: nat, sum: Spend)
    requires k in t && t[k].spend.Some?
    ensures AllKnown(t) <==> AllKnown(Without(t, k))
    ensures Plus(Total(t), sum) == Plus(Total(Without(t, k)), Plus(t[k].spend.value, sum))
  {
    TotalLess(t, k);
    assert forall j | j in t && j != k :: j in Without(t, k) && Without(t, k)[j] == t[j];
  }
}
