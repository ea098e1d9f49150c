/** The conditions an evaluation is subject to, written out on the log, the plan and the circumstances. */
module CampaignConditions {
  import opened Strings
  import opened EvaluationCampaign

  // The log

  /** This event ended the slot at `j`, and no later one did. */
  ghost predicate EndsLast(events: seq<Event>, j: int, slot: nat) {
    && 0 <= j < |events| && events[j].slot == slot && events[j].state in {SUCCEEDED, FAILED}
    && forall i | j < i < |events| && events[i].slot == slot :: events[i].state in {OPENED, STARTED}
  }

  ghost predicate EndedWith(events: seq<Event>, slot: nat, e: Event) {
    exists j :: EndsLast(events, j, slot) && events[j] == e
  }

  lemma {:induction false} EndsLastNext(events: seq<Event>, e: Event, j: int, slot: nat)
    ensures EndsLast(events + [e], j, slot) <==>
            if e.slot == slot && e.Terminal() then j == |events| else EndsLast(events, j, slot)
  {
    var all := events + [e];
    assert all[|events|] == e && forall i | 0 <= i < |events| :: all[i] == events[i];
    assert !e.Terminal() <==> e.state in {OPENED, STARTED};
  }

  /** A slot has ended with this event if and only if it is the last terminal one of the slot. */
  lemma {:induction false} TerminalsExactly(events: seq<Event>, slot: nat, e: Event)
    ensures slot in Terminals(events) && Terminals(events)[slot] == e <==>
            EndedWith(events, slot, e)
  {
    if events != [] {
      var front, last := events[..|events| - 1], events[|events| - 1];
      TerminalsExactly(front, slot, e);
      assert front + [last] == events;
      forall j
        ensures EndsLast(events, j, slot) <==>
                if last.slot == slot && last.Terminal() then j == |front| else EndsLast(front, j, slot)
      {
        EndsLastNext(front, last, j, slot);
      }
      if last.slot == slot && last.Terminal() {
        assert EndsLast(events, |front|, slot);
      }
    }
  }

  predicate StateAt(events: seq<Event>, slot: nat, j: nat, state: State) {
    j < |events| && events[j].slot == slot && events[j].state == state
  }

  /** The history of a slot is the states of its events, one each, in the order of the log. */
  lemma {:induction false} HistoryExactly(events: seq<Event>, slot: nat) returns (at: seq<nat>, history: seq<State>)
    ensures history == History(events, slot) && |at| == |history|
    ensures forall n | 0 <= n < |at| :: StateAt(events, slot, at[n], history[n])
    ensures forall m, n | 0 <= m < n < |at| :: at[m] < at[n]
    ensures forall j: nat | j < |events| :: j in at <==> events[j].slot == slot
  {
    at, history := [], [];
    if events != [] {
      var front, e := events[..|events| - 1], events[|events| - 1];
      at, history := HistoryExactly(front, slot);
      assert front + [e] == events;
      forall n | 0 <= n < |at|
        ensures StateAt(events, slot, at[n], history[n])
      {
        assert StateAt(front, slot, at[n], history[n]);
      }
      if e.slot == slot {
        at, history := at + [|front|], history + [e.state];
      }
    }
  }

  /** What some slots spent together: each adds the attempts and the cost on record, wherever it is added. */
  lemma {:induction false} TotalExactly(t: map<nat, Event>, e: Event)
    requires e.slot !in t
    ensures Total(map[]) == Spend(0, 0.0)
    ensures Total(t[e.slot := e]) ==
            match e.spend
            case None => Total(t)
            case Some(Spend(attempts, cost)) => Spend(Total(t).attempts + attempts, Total(t).cost + cost)
  {
    TotalMore(t, e);
  }

  predicate Holds(t: map<nat, Event>, slot: nat, e: Event) {
    slot in t && t[slot] == e
  }

  /** The events that ended the slots before this one. */
  ghost predicate EarlierEnds(t: map<nat, Event>, events: seq<Event>, slot: nat) {
    forall k: nat, e :: Holds(t, k, e) <==> 1 <= k < slot && EndedWith(events, k, e)
  }

  /** The events that ended all other slots. */
  ghost predicate OtherEnds(t: map<nat, Event>, events: seq<Event>, slot: nat) {
    forall k: nat, e :: Holds(t, k, e) <==> k != slot && EndedWith(events, k, e)
  }

  lemma {:induction false} EarlierExactly(events: seq<Event>, slot: nat)
    ensures EarlierEnds(Earlier(events, slot), events, slot)
  {
    forall k: nat, e
      ensures Holds(Earlier(events, slot), k, e) <==> 1 <= k < slot && EndedWith(events, k, e)
    {
      TerminalsExactly(events, k, e);
    }
  }

  lemma {:induction false} OthersExactly(events: seq<Event>, slot: nat)
    ensures OtherEnds(Without(Terminals(events), slot), events, slot)
  {
    forall k: nat, e
      ensures Holds(Without(Terminals(events), slot), k, e) <==> k != slot && EndedWith(events, k, e)
    {
      TerminalsExactly(events, k, e);
    }
  }

  lemma {:induction false} SameHolds(t: map<nat, Event>, t': map<nat, Event>)
    requires forall k: nat, e :: Holds(t, k, e) <==> Holds(t', k, e)
    ensures t == t'
  {
    forall k: nat | k in t
      ensures k in t' && t'[k] == t[k]
    {
      assert Holds(t, k, t[k]);
      assert Holds(t', k, t[k]);
    }
    forall k: nat | k in t'
      ensures k in t
    {
      assert Holds(t', k, t'[k]);
      assert Holds(t, k, t'[k]);
    }
  }

  lemma {:induction false} AllEnded(events: seq<Event>, slot: nat)
    ensures Required(slot) <= Terminals(events).Keys <==> forall i: nat | 1 <= i < slot :: i in Earlier(events, slot)
  {
    if Required(slot) <= Terminals(events).Keys {
      forall i: nat | 1 <= i < slot
        ensures i in Earlier(events, slot)
      {
        assert i in Required(slot);
      }
    }
    if forall i: nat | 1 <= i < slot :: i in Earlier(events, slot) {
      forall i | i in Required(slot)
        ensures i in Terminals(events).Keys
      {
        assert i in Earlier(events, slot);
      }
    }
  }

  /** What is on record of each of these events is known. */
  predicate Spending(t: map<nat, Event>) {
    forall k | k in t :: t[k].spend != None
  }

  /** A slot is in turn if and only if every slot from one up to it has ended, with spending that is known and together
      below both budgets. */
  lemma {:induction false} InTurnExactly(events: seq<Event>, plan: Plan, slot: nat, t: map<nat, Event>)
    requires EarlierEnds(t, events, slot)
    ensures InTurn(events, plan, slot) <==>
            && (forall i | 1 <= i < slot :: i in t) && Spending(t)
            && Total(t).attempts < plan.attemptsTotal && Total(t).cost < plan.cost
  {
    EarlierExactly(events, slot);
    SameHolds(t, Earlier(events, slot));
    AllEnded(events, slot);
  }

  /** A slot is claimed if and only if the folder is of no campaign yet or of this one, the slot is in turn, and nobody has
      claimed it. */
  lemma {:induction false} MayClaimExactly(f: Folder, plan: Plan, run: CampaignRun)
    ensures MayClaim(f, plan, run) <==>
            (f.master == None || f.master == Some(run.hash)) && InTurn(f.events, plan, run.slot) && run.slot !in f.claims
  {
  }

  /** A run is within budget if and only if its attempts and cost are both on record, its attempts at most those of a run,
      and what all other slots that ended are known to have spent, together with it, at most what the campaign may. */
  lemma {:induction false} WithinBudgetExactly(
    events: seq<Event>, plan: Plan, slot: nat, cost: Option<Rollup>, others: map<nat, Event>)
    requires OtherEnds(others, events, slot)
    ensures WithinBudget(events, plan, slot, cost) <==>
            match cost
            case Some(Rollup(attempts, Some(usd))) =>
              && Spending(others) && attempts <= plan.attemptsPerRun
              && Total(others).attempts + attempts <= plan.attemptsTotal && Total(others).cost + usd <= plan.cost
            case _ => false
  {
    OthersExactly(events, slot);
    SameHolds(others, Without(Terminals(events), slot));
  }

  // One evaluation

  /** The guard lets an evaluation pass unless its store is held out and it lacks permission or a slot. */
  lemma {:induction false} GuardedExactly(inv: Invocation)
    ensures Guarded(inv) <==> inv in {inv.(holdout := false), Invocation(true, true, inv.run)} && (inv.holdout ==> inv.run != None)
  {
  }

  /** The truth is opened if and only if the sources are as registered, and the truth can be read and is well formed, and,
      for a campaign, is the registered one. */
  lemma {:induction false} OpensExactly(run: Option<CampaignRun>, c: Circumstances)
    ensures Opens(run, c) <==>
            c.sourcesMatch && (c.truth == Bytes(true, true) || (run == None && c.truth == Bytes(false, true)))
  {
  }

  /** A run completes if and only if its start is logged where there is a campaign, its execution is rolled up and raises
      nothing, and a campaign run is within budget. */
  lemma {:induction false} CompletesExactly(events: seq<Event>, plan: Plan, run: Option<CampaignRun>, c: Circumstances)
    ensures Completes(events, plan, run, c) <==>
            match c.execution
            case RaisedEarly => false
            case Rolled(cost, raises) =>
              !raises && (match run
                          case None => true
                          case Some(r) => c.announced && WithinBudget(events, plan, r.slot, cost))
  {
  }

  /** A row is left running if and only if a campaign could not log its start, or the failure could not be written. */
  lemma {:induction false} LeftRunningExactly(run: Option<CampaignRun>, c: Circumstances, executed: bool)
    ensures !LeftRunning(run, c, executed) <==> (run == None || c.announced) && (executed || c.closed)
  {
  }

  /** A claimed slot keeps its terminal event if and only if its truth was not opened, or the store was found, the start
      logged, and a completed run reported or a failed one closed. */
  lemma {:induction false} LostExactly(run: CampaignRun, c: Circumstances, executed: bool)
    ensures !Lost(Some(run), c, executed) <==>
            || !c.sourcesMatch || c.truth != Bytes(true, true)
            || (c.storeKnown && c.announced && if executed then c.reported else c.closed)
  {
    OpensExactly(Some(run), c);
    LeftRunningExactly(Some(run), c, executed);
  }

  /** What a slot is logged to have spent: nothing unless its truth was opened, then the attempts and the cost, if both are
      on record. */
  lemma {:induction false} SpentExactly(run: CampaignRun, c: Circumstances)
    ensures SpentBy(Some(run), c) ==
            if !c.sourcesMatch || c.truth != Bytes(true, true) then Some(Spend(0, 0.0))
            else match c.execution
                 case Rolled(Some(Rollup(attempts, Some(usd))), _) => Some(Spend(attempts, usd))
                 case _ => None
  {
    OpensExactly(Some(run), c);
  }

  /** The histories a slot may have: opened, started, succeeded, in this order, and failed at any point, which ends it. */
  lemma {:induction false} LifecycleExactly(history: seq<State>)
    ensures Lifecycle(history) <==>
            && |history| <= 3 && (forall i | 0 <= i < |history| - 1 :: history[i] != FAILED)
            && (|history| >= 1 ==> history[0] in {OPENED, FAILED}) && (|history| >= 2 ==> history[1] in {STARTED, FAILED})
            && (|history| == 3 ==> history[2] in {SUCCEEDED, FAILED})
    ensures Ended(history) <==> history != [] && history[|history| - 1] !in {OPENED, STARTED}
  {
    var n := |history|;
    assert n >= 1 ==> history[..0] == [];
    assert n >= 2 ==> history[..1] == [history[0]];
    assert n >= 3 ==> history[..2] == [history[0], history[1]];
    if Lifecycle(history) {
      NoLonger(history);
    }
    if history != [] {
      EndingState(history[n - 1]);
    }
  }

  lemma {:induction false} EndingState(s: State)
    ensures s in {SUCCEEDED, FAILED} <==> s !in {OPENED, STARTED}
  {
  }

  lemma {:induction false} NoLonger(history: seq<State>)
    requires Lifecycle(history)
    ensures |history| <= 3
    ensures forall i | 0 <= i < |history| - 1 :: history[i] != FAILED
  {
    forall i | 0 <= i < |history| - 1
      ensures history[i] !in {FAILED, SUCCEEDED}
    {
      assert Allowed(history[..i + 1], history[i + 1]);
    }
    var n := |history|;
    assert n >= 1 ==> history[..0] == [] && Allowed(history[..0], history[0]);
    assert n >= 2 ==> history[..1] == [history[0]] && Allowed(history[..1], history[1]);
    assert n >= 3 ==> history[..2] == [history[0], history[1]] && Allowed(history[..2], history[2]);
  }

  /** What an event adds to the log: one line for a campaign run, nothing otherwise. */
  lemma {:induction false} LineExactly(run: Option<CampaignRun>, state: State, row: Option<nat>, spend: Option<Spend>)
    ensures run == None ==> Line(run, state, row, spend) == []
    ensures forall r :: run == Some(r) ==> Line(run, state, row, spend) == [Event(r.slot, state, row, spend)]
  {
  }
}
