/** Which campaigns can still claim a slot, and which are over for good. */
module CampaignProspects {
  import opened Strings
  import opened Collections
  import opened EvaluationCampaign
  import opened CampaignInterleavings

  // The next slot

  /** The campaign of this hash has one more slot on its schedule, and that slot is in turn. */
  ghost predicate NextInTurn(plans: Plans, f: Folder, hash: string) {
    f.master in {None, Some(hash)} && Slots(f) < plans(hash).slots && InTurn(f.events, plans(hash), Slots(f) + 1)
  }

  predicate NoHolders(live: map<nat, Phase>) {
    forall id | id in live :: !Holder(live[id])
  }

  lemma {:induction false} HolderLast(plans: Plans, w: World, id: nat)
    requires Sound(plans, w) && id in w.live && Holder(w.live[id])
    ensures Slots(w.folder) > 0 && w.folder.master == Some(w.live[id].inv.run.value.hash)
    ensures w.live[id].inv.run.value.slot == Slots(w.folder)
    ensures !Ended(History(w.folder.events, Slots(w.folder))) && NoHolders(Leave(w, id).live)
  {
    assert PhaseSound(plans, w.folder, w.live[id]);
    NotEnded(w.live[id]);
  }

  lemma {:induction false} NotEndedNotNext(plans: Plans, f: Folder, hash: string)
    requires FolderSound(plans, f) && Slots(f) > 0 && !Ended(History(f.events, Slots(f)))
    ensures !NextInTurn(plans, f, hash)
  {
    TerminalClaimed(plans, f, Slots(f));
    assert Slots(f) in Required(Slots(f) + 1);
  }

  lemma {:induction false} FreeSlot(plans: Plans, f: Folder, run: CampaignRun) returns (next: nat)
    requires FolderSound(plans, f) && InTurn(f.events, plans(run.hash), run.slot) && 1 <= run.slot && run.slot !in f.claims
    ensures next == Slots(f) + 1 == run.slot
  {
    next := Slots(f) + 1;
    NextFree(plans, f, plans(run.hash), run.slot);
  }

  /** Whoever is about to take a free slot takes the next one, in turn and on the schedule. */
  lemma {:induction false} FreeIsNext(plans: Plans, w: World, id: nat)
    requires Sound(plans, w) && Reached(w, id, Take(id)) && w.live[id].inv.run.value.slot !in w.folder.claims
    ensures NextInTurn(plans, w.folder, w.live[id].inv.run.value.hash)
  {
    VettedRun(plans, w, id);
    var _ := FreeSlot(plans, w.folder, w.live[id].inv.run.value);
  }

  lemma {:induction false} VettedRun(plans: Plans, w: World, id: nat)
    requires Sound(plans, w) && Reached(w, id, Take(id))
    ensures var run := w.live[id].inv.run.value;
            && 1 <= run.slot <= plans(run.hash).slots && w.folder.master == Some(run.hash)
            && InTurn(w.folder.events, plans(run.hash), run.slot)
  {
    LiveFits(plans, w, id);
  }

  // Nobody holds a slot

  /** Nobody holds a slot, and no next slot is in turn. */
  ghost predicate Over(plans: Plans, w: World) {
    Sound(plans, w) && NoHolders(w.live) && forall hash :: !NextInTurn(plans, w.folder, hash)
  }

  lemma {:induction false} IdleOwnStep(plans: Plans, w: World, a: Action)
    requires Reached(w, a.id, a) && !a.Take? && !Holder(w.live[a.id]) && NoHolders(w.live)
    requires Fits(plans, w, w.live[a.id])
    ensures var w' := Next(plans, w, a);
            && w'.folder.(master := w.folder.master) == w.folder && NoHolders(w'.live)
            && (w'.folder.master == w.folder.master || w.folder.master.None?)
  {
  }

  /** Without a holder only taking a slot changes claims or log, or makes a holder. */
  lemma {:induction false} IdleStep(plans: Plans, w: World, a: Action)
    requires Sound(plans, w) && NoHolders(w.live) && !a.Take?
    ensures var w' := Next(plans, w, a);
            && w'.folder.(master := w.folder.master) == w.folder && NoHolders(w'.live)
            && (w'.folder.master == w.folder.master || w.folder.master.None?)
  {
    if Reached(w, a.id, a) {
      LiveFits(plans, w, a.id);
      IdleOwnStep(plans, w, a);
    }
  }

  lemma {:induction false} LockedStillOver(plans: Plans, f: Folder, f': Folder)
    requires f'.(master := f.master) == f && (f'.master == f.master || f.master.None?)
    requires forall hash :: !NextInTurn(plans, f, hash)
    ensures forall hash :: !NextInTurn(plans, f', hash)
  {
    forall hash
      ensures !NextInTurn(plans, f', hash)
    {
      assert !NextInTurn(plans, f, hash);
    }
  }

  lemma {:induction false} OverStep(plans: Plans, w: World, a: Action) returns (w': World)
    requires Over(plans, w)
    ensures w' == Next(plans, w, a) && Over(plans, w')
    ensures w'.folder.claims == w.folder.claims && w'.folder.events == w.folder.events
  {
    w' := NextSound(plans, w, a);
    if !a.Take? {
      IdleStep(plans, w, a);
      LockedStillOver(plans, w.folder, w'.folder);
    } else if Reached(w, a.id, a) && w.live[a.id].inv.run.value.slot !in w.folder.claims {
      FreeIsNext(plans, w, a.id);
    }
  }

  /** A slot lost by its evaluation, a failure of unknown cost, a used-up budget or schedule ends the campaign for good:
      no slot is ever claimed again, and nothing more is logged. */
  lemma {:induction false} OverForGood(plans: Plans, w: World, actions: seq<Action>) returns (w': World)
    requires Over(plans, w)
    ensures w' == Run(plans, w, actions) && Over(plans, w')
    ensures w'.folder.claims == w.folder.claims && w'.folder.events == w.folder.events
  {
    w' := w;
    if actions != [] {
      w' := OverForGood(plans, w, actions[..|actions| - 1]);
      w' := OverStep(plans, w', actions[|actions| - 1]);
    }
  }

  lemma {:induction false} NothingNext(plans: Plans, f: Folder)
    requires FolderSound(plans, f) && Slots(f) > 0 && !Ended(History(f.events, Slots(f)))
    ensures forall hash :: !NextInTurn(plans, f, hash)
  {
    forall hash
      ensures !NextInTurn(plans, f, hash)
    {
      NotEndedNotNext(plans, f, hash);
    }
  }

  /** An evaluation that dies holding its slot ends the campaign. */
  lemma {:induction false} CrashEndsCampaign(plans: Plans, w: World, id: nat) returns (w': World)
    requires Sound(plans, w) && id in w.live && Holder(w.live[id])
    ensures w' == Next(plans, w, Crash(id)) && Over(plans, w')
  {
    HolderLast(plans, w, id);
    NothingNext(plans, w.folder);
    w' := LeaveSound(plans, w, id);
  }

  /** With nobody holding a slot, the next slot can be claimed in four steps when it is in turn. */
  lemma {:induction false} GoesOn(plans: Plans, w: World, id: nat, hash: string) returns (run: CampaignRun, w': World)
    requires Sound(plans, w) && id !in w.live && NextInTurn(plans, w.folder, hash)
    ensures var inv := Invocation(true, true, Some(run));
            w' == Next(plans, Next(plans, Next(plans, Next(plans, w, Enter(id, inv)), Admit(id)), Vet(id)), Take(id))
    ensures run.slot == Slots(w.folder) + 1 && run.slot !in w.folder.claims
    ensures w'.folder.claims == w.folder.claims + {run.slot}
  {
    run := CampaignRun(hash, Slots(w.folder) + 1);
    assert run.slot !in Required(Slots(w.folder) + 1);
    w' := ClaimInFour(plans, w, id, run);
  }

  lemma {:induction false} ClaimInFour(plans: Plans, w: World, id: nat, run: CampaignRun) returns (w': World)
    requires SameCampaign(w.folder, run) && id !in w.live && InTurn(w.folder.events, plans(run.hash), run.slot)
    requires 1 <= run.slot <= plans(run.hash).slots && run.slot !in w.folder.claims
    ensures var inv := Invocation(true, true, Some(run));
            w' == Next(plans, Next(plans, Next(plans, Next(plans, w, Enter(id, inv)), Admit(id)), Vet(id)), Take(id))
    ensures w'.folder.claims == w.folder.claims + {run.slot}
  {
    var inv := Invocation(true, true, Some(run));
    var f := Locked(w.folder, run);
    var w1 := Next(plans, w, Enter(id, inv));
    assert w1.live[id] == Phase(inv, Entered) && w1.folder == w.folder;
    var w2 := Next(plans, w1, Admit(id));
    assert w2.live[id] == Phase(inv, Admitted) && w2.folder == f;
    var w3 := Next(plans, w2, Vet(id));
    assert w3.live[id] == Phase(inv, Vetted) && w3.folder == f;
    w' := Next(plans, w3, Take(id));
  }

  // Somebody holds a slot

  /** What an evaluation has spent, once that is settled. */
  function Settled(at: Point): Option<Option<Spend>> {
    match at
    case Raised(_, spend) => Some(spend)
    case Marked(_, spend) => Some(spend)
    case Finished(_, spend) => Some(spend)
    case _ => None
  }

  /** The holder of a slot can still end it so that the next scheduled slot is in turn: its spending is not settled yet,
      or it is known and below what the budgets leave. */
  ghost predicate MayEndWell(plans: Plans, f: Folder, p: Phase) {
    Holder(p) &&
    var plan := plans(p.inv.run.value.hash);
    Slots(f) < plan.slots && (Settled(p.at).Some? ==> Leaves(f.events, plan, Slots(f), Settled(p.at).value))
  }

  lemma {:induction false} EarlierAll(plans: Plans, f: Folder)
    requires FolderSound(plans, f) && Slots(f) > 0 && !Ended(History(f.events, Slots(f)))
    ensures Terminals(f.events) == Earlier(f.events, Slots(f))
  {
    forall slot | slot in Terminals(f.events)
      ensures slot in Required(Slots(f))
    {
      TerminalClaimed(plans, f, slot);
    }
  }

  lemma {:induction false} EarlierEnded(plans: Plans, f: Folder)
    requires FolderSound(plans, f) && Slots(f) > 0
    ensures Required(Slots(f)) <= Terminals(f.events).Keys
  {
    forall slot | slot in Required(Slots(f))
      ensures slot in Terminals(f.events)
    {
      TerminalClaimed(plans, f, slot);
    }
  }

  lemma {:induction false} EarlierNext(plans: Plans, f: Folder, e: Event)
    requires FolderSound(plans, f) && Slots(f) > 0 && !Ended(History(f.events, Slots(f))) && e.slot == Slots(f) && e.Terminal()
    ensures var (t, t') := (Earlier(f.events, Slots(f)), Earlier(f.events + [e], Slots(f) + 1));
            t' == t[e.slot := e] && e.slot !in t && Required(Slots(f) + 1) <= Terminals(f.events + [e]).Keys
  {
    EarlierAll(plans, f);
    EarlierEnded(plans, f);
    HistoryNext(f.events, e, e.slot);
    assert Required(Slots(f) + 1) == Required(Slots(f)) + {e.slot};
    OnlyMore(Terminals(f.events), Required(Slots(f)), e);
  }

  /** When the last slot has ended, the next is in turn if and only if what it spent is known and leaves something. */
  lemma {:induction false} EndedInTurn(plans: Plans, f: Folder, e: Event, plan: Plan)
    requires FolderSound(plans, f) && Slots(f) > 0 && !Ended(History(f.events, Slots(f))) && e.slot == Slots(f) && e.Terminal()
    requires FolderSound(plans, Appended(f, e)) && InTurn(f.events, plan, Slots(f))
    ensures InTurn(f.events + [e], plan, Slots(f) + 1) <==> Leaves(f.events, plan, Slots(f), e.spend)
  {
    EarlierNext(plans, f, e);
    TotalMore(Earlier(f.events, Slots(f)), e);
    KnownMore(Earlier(f.events, Slots(f)), e);
  }

  // Ending the slot

  /** An execution that fails before any call. */
  function NoCalls(): Execution {
    Rolled(Some(Rollup(0, Some(0.0))), true)
  }

  /** The next step of a holder on the shortest way to the end of its slot. */
  function EndingStep(id: nat, at: Point): Action {
    match at
    case Holding => Verify(id, false)
    case Verified => ReadTruth(id, Unreadable)
    case HasTruth(_) => Open(id)
    case OpenedUp(_) => Parse(id)
    case Parsed => Launch(id)
    case Launched(_) => Announce(id)
    case Running(_) => Execute(id, NoCalls())
    case Raised(_, _) => Mark(id)
    case _ => Conclude(id)
  }

  /** The steps left on that way. */
  function Left(at: Point): nat {
    match at
    case HasTruth(_) => 6
    case OpenedUp(wellFormed) => if wellFormed then 5 else 0
    case Parsed => 4
    case Launched(_) => 3
    case Running(_) => 2
    case Raised(_, _) => 1
    case _ => 0
  }

  /** Spending nothing leaves something. */
  lemma {:induction false} NothingLeaves(plans: Plans, w: World, id: nat)
    requires Sound(plans, w) && id in w.live && Holder(w.live[id])
    ensures var hash := w.live[id].inv.run.value.hash;
            InTurn(w.folder.events, plans(hash), Slots(w.folder)) && Leaves(w.folder.events, plans(hash), Slots(w.folder), Some(NOTHING))
  {
    HolderLast(plans, w, id);
  }

  /** The step keeps the holder going, closer to its end, with what may still be spent. */
  ghost predicate GoesCloser(plans: Plans, w: World, id: nat, w': World)
    requires id in w.live
  {
    && id in w'.live && w'.live[id].inv == w.live[id].inv && Left(w'.live[id].at) < Left(w.live[id].at)
    && w'.folder.claims == w.folder.claims && MayEndWell(plans, w'.folder, w'.live[id])
  }

  lemma {:induction false} MovesCloser(plans: Plans, w: World, id: nat, w0: World, at: Point)
    requires id in w.live && MayEndWell(plans, w.folder, w.live[id]) && w0.live == w.live
    requires w0.folder.claims == w.folder.claims && Left(at) < Left(w.live[id].at) && Holder(w.live[id].(at := at))
    requires Settled(at).Some? ==> Leaves(w0.folder.events, plans(w.live[id].inv.run.value.hash), Slots(w0.folder), Settled(at).value)
    ensures GoesCloser(plans, w, id, Move(w0, id, at))
  {
  }

  lemma {:induction false} OpensTruth(plans: Plans, w: World, id: nat)
    requires id in w.live && MayEndWell(plans, w.folder, w.live[id]) && w.live[id].at.HasTruth?
    ensures GoesCloser(plans, w, id, Next(plans, w, Open(id)))
  {
    var p := w.live[id];
    MovesCloser(plans, w, id, Log(w, p.inv, OPENED, None, None), OpenedUp(p.at.wellFormed));
  }

  lemma {:induction false} ParsesTruth(plans: Plans, w: World, id: nat)
    requires id in w.live && MayEndWell(plans, w.folder, w.live[id]) && w.live[id].at == OpenedUp(true)
    ensures GoesCloser(plans, w, id, Next(plans, w, Parse(id)))
  {
    MovesCloser(plans, w, id, w, Parsed);
  }

  lemma {:induction false} LaunchesRun(plans: Plans, w: World, id: nat)
    requires id in w.live && MayEndWell(plans, w.folder, w.live[id]) && w.live[id].at.Parsed?
    ensures GoesCloser(plans, w, id, Next(plans, w, Launch(id)))
  {
    MovesCloser(plans, w, id, w.(rows := w.rows + [RUNNING]), Launched(|w.rows|));
  }

  lemma {:induction false} AnnouncesRun(plans: Plans, w: World, id: nat)
    requires id in w.live && MayEndWell(plans, w.folder, w.live[id]) && w.live[id].at.Launched?
    ensures GoesCloser(plans, w, id, Next(plans, w, Announce(id)))
  {
    var row := w.live[id].at.row;
    MovesCloser(plans, w, id, Log(w, w.live[id].inv, STARTED, Some(row), None), Running(row));
  }

  lemma {:induction false} RaiseMoves(plans: Plans, w: World, id: nat) returns (at: Point)
    requires id in w.live && w.live[id].at.Running? && w.live[id].inv.run.Some?
    ensures Next(plans, w, Execute(id, NoCalls())) == Move(w, id, at) && at == Raised(w.live[id].at.row, Some(NOTHING))
  {
    at := Raised(w.live[id].at.row, Some(NOTHING));
  }

  lemma {:induction false} CallsNothing(plans: Plans, w: World, id: nat)
    requires Sound(plans, w) && id in w.live && MayEndWell(plans, w.folder, w.live[id]) && w.live[id].at.Running?
    ensures GoesCloser(plans, w, id, Next(plans, w, Execute(id, NoCalls())))
  {
    NothingLeaves(plans, w, id);
    var at := RaiseMoves(plans, w, id);
    MovesCloser(plans, w, id, w, at);
  }

  lemma {:induction false} MarkMoves(plans: Plans, w: World, id: nat) returns (w0: World, at: Point)
    requires Sound(plans, w) && id in w.live && w.live[id].at.Raised?
    ensures w0.live == w.live && w0.folder == w.folder && Next(plans, w, Mark(id)) == Move(w0, id, at)
    ensures at == Marked(w.live[id].at.row, w.live[id].at.spend)
  {
    RaisedRuns(plans, w, id);
    at := Marked(w.live[id].at.row, w.live[id].at.spend);
    w0 := w.(rows := w.rows[at.row := ROW_FAILED]);
  }

  lemma {:induction false} MarksRow(plans: Plans, w: World, id: nat)
    requires Sound(plans, w) && id in w.live && MayEndWell(plans, w.folder, w.live[id]) && w.live[id].at.Raised?
    ensures GoesCloser(plans, w, id, Next(plans, w, Mark(id)))
  {
    var w0, at := MarkMoves(plans, w, id);
    MovesCloser(plans, w, id, w0, at);
  }

  lemma {:induction false} StepsOn(plans: Plans, w: World, id: nat)
    requires Sound(plans, w) && id in w.live && MayEndWell(plans, w.folder, w.live[id]) && Left(w.live[id].at) > 0
    ensures GoesCloser(plans, w, id, Next(plans, w, EndingStep(id, w.live[id].at)))
  {
    var at := w.live[id].at;
    if at.HasTruth? {
      OpensTruth(plans, w, id);
    } else if at.OpenedUp? {
      ParsesTruth(plans, w, id);
    } else if at.Parsed? {
      LaunchesRun(plans, w, id);
    } else if at.Launched? {
      AnnouncesRun(plans, w, id);
    } else if at.Running? {
      CallsNothing(plans, w, id);
    } else {
      MarksRow(plans, w, id);
    }
  }

  /** The event with which a holder at its last step ends its slot. */
  function LastEvent(p: Phase): Event
    requires p.inv.run.Some?
  {
    var slot := p.inv.run.value.slot;
    match p.at
    case Finished(row, spend) => Event(slot, SUCCEEDED, Some(row), spend)
    case Marked(row, spend) => Event(slot, FAILED, Some(row), spend)
    case _ => Event(slot, FAILED, None, Some(NOTHING))
  }

  /** The holder has logged its last event and left. */
  ghost predicate StepsOut(w: World, id: nat, w': World)
    requires id in w.live && w.live[id].inv.run.Some?
  {
    w' == Leave(w.(folder := Appended(w.folder, LastEvent(w.live[id]))), id)
  }

  lemma {:induction false} CheckFails(plans: Plans, w: World, id: nat)
    requires id in w.live && w.live[id].inv.run.Some? && w.live[id].at.Holding?
    ensures StepsOut(w, id, Next(plans, w, Verify(id, false)))
  {
  }

  lemma {:induction false} ReadFails(plans: Plans, w: World, id: nat)
    requires id in w.live && w.live[id].inv.run.Some? && w.live[id].at.Verified?
    ensures StepsOut(w, id, Next(plans, w, ReadTruth(id, Unreadable)))
  {
  }

  lemma {:induction false} ParseFails(plans: Plans, w: World, id: nat)
    requires id in w.live && w.live[id].inv.run.Some? && w.live[id].at == OpenedUp(false)
    ensures StepsOut(w, id, Next(plans, w, Parse(id)))
  {
  }

  lemma {:induction false} SlotConcluded(plans: Plans, w: World, id: nat)
    requires id in w.live && w.live[id].inv.run.Some? && (w.live[id].at.Marked? || w.live[id].at.Finished?)
    ensures StepsOut(w, id, Next(plans, w, Conclude(id)))
  {
  }

  lemma {:induction false} LastStep(plans: Plans, w: World, id: nat, a: Action)
    requires id in w.live && Holder(w.live[id]) && Left(w.live[id].at) == 0 && a == EndingStep(id, w.live[id].at)
    ensures StepsOut(w, id, Next(plans, w, a))
  {
    var at := w.live[id].at;
    if at.Holding? {
      CheckFails(plans, w, id);
    } else if at.Verified? {
      ReadFails(plans, w, id);
    } else if at.OpenedUp? {
      ParseFails(plans, w, id);
    } else {
      SlotConcluded(plans, w, id);
    }
  }

  lemma {:induction false} EndedWell(plans: Plans, w: World, id: nat) returns (w': World)
    requires Sound(plans, w) && id in w.live && MayEndWell(plans, w.folder, w.live[id]) && Left(w.live[id].at) == 0
    ensures w' == Next(plans, w, EndingStep(id, w.live[id].at)) && Sound(plans, w') && w'.folder.claims == w.folder.claims
    ensures NoHolders(w'.live) && NextInTurn(plans, w'.folder, w.live[id].inv.run.value.hash)
  {
    var (hash, e) := (w.live[id].inv.run.value.hash, LastEvent(w.live[id]));
    w' := NextSound(plans, w, EndingStep(id, w.live[id].at));
    LastStep(plans, w, id, EndingStep(id, w.live[id].at));
    HolderLast(plans, w, id);
    NothingLeaves(plans, w, id);
    EndedInTurn(plans, w.folder, e, plans(hash));
  }

  lemma {:induction false} RunFirst(plans: Plans, w: World, a: Action, rest: seq<Action>)
    ensures Run(plans, w, [a] + rest) == Run(plans, Next(plans, w, a), rest)
  {
    var all := [a] + rest;
    if rest == [] {
      assert all[..|all| - 1] == [] && all[|all| - 1] == a;
    } else {
      assert all[..|all| - 1] == [a] + rest[..|rest| - 1] && all[|all| - 1] == rest[|rest| - 1];
      RunFirst(plans, w, a, rest[..|rest| - 1]);
    }
  }

  lemma {:induction false} EndSlot(plans: Plans, w: World, id: nat) returns (actions: seq<Action>, w': World)
    requires Sound(plans, w) && id in w.live && MayEndWell(plans, w.folder, w.live[id])
    ensures w' == Run(plans, w, actions) && Sound(plans, w') && w'.folder.claims == w.folder.claims
    ensures NoHolders(w'.live) && NextInTurn(plans, w'.folder, w.live[id].inv.run.value.hash)
    decreases Left(w.live[id].at)
  {
    var a := EndingStep(id, w.live[id].at);
    if Left(w.live[id].at) == 0 {
      w' := EndedWell(plans, w, id);
      actions := [a];
      RunFirst(plans, w, a, []);
      assert [a] + [] == [a];
    } else {
      StepsOn(plans, w, id);
      var w1 := NextSound(plans, w, a);
      var rest;
      rest, w' := EndSlot(plans, w1, id);
      actions := [a] + rest;
      RunFirst(plans, w, a, rest);
    }
  }

  // Whether any slot can still be claimed

  ghost predicate ClaimsAgain(plans: Plans, w: World) {
    exists actions :: Run(plans, w, actions).folder.claims != w.folder.claims
  }

  /** Some holder may still end its slot well, or nobody holds a slot and the next one is in turn. */
  ghost predicate CanGoOn(plans: Plans, w: World) {
    || (exists id | id in w.live :: MayEndWell(plans, w.folder, w.live[id]))
    || (NoHolders(w.live) && exists hash :: NextInTurn(plans, w.folder, hash))
  }

  lemma {:induction false} RunAfter(plans: Plans, w: World, before: seq<Action>, a: Action) returns (after: seq<Action>)
    ensures Run(plans, w, after) == Next(plans, Run(plans, w, before), a)
  {
    after := before + [a];
    assert after[..|after| - 1] == before;
  }

  lemma {:induction false} ClaimsAfter(plans: Plans, w: World, before: seq<Action>, w1: World, hash: string)
    requires w1 == Run(plans, w, before) && Sound(plans, w1) && w1.folder.claims == w.folder.claims
    requires NextInTurn(plans, w1.folder, hash)
    ensures ClaimsAgain(plans, w)
  {
    var id := FreshId(w1.live.Keys);
    var run, w2 := GoesOn(plans, w1, id, hash);
    var b1 := RunAfter(plans, w, before, Enter(id, Invocation(true, true, Some(run))));
    var b2 := RunAfter(plans, w, b1, Admit(id));
    var b3 := RunAfter(plans, w, b2, Vet(id));
    var all := RunAfter(plans, w, b3, Take(id));
    assert Run(plans, w, all) == w2;
    assert run.slot in w2.folder.claims;
  }

  lemma {:induction false} OthersLive(plans: Plans, w: World, id: nat, a: Action)
    requires id in w.live && a.id != id
    ensures var w' := Next(plans, w, a); id in w'.live && w'.live[id] == w.live[id]
  {
  }

  /** Whoever holds no slot changes at most which campaign the folder belongs to. */
  lemma {:induction false} OthersFolder(plans: Plans, w: World, a: Action)
    requires Reached(w, a.id, a) && !Holder(w.live[a.id]) && Fits(plans, w, w.live[a.id]) && w.folder.master.Some?
    requires a.Take? ==> w.live[a.id].inv.run.value.slot in w.folder.claims
    ensures Next(plans, w, a).folder == w.folder
  {
  }

  /** The steps of others change nothing about a holder and the folder. */
  lemma {:induction false} OthersStep(plans: Plans, w: World, id: nat, a: Action)
    requires Sound(plans, w) && id in w.live && Holder(w.live[id]) && a.id != id
    ensures var w' := Next(plans, w, a); w'.folder == w.folder && id in w'.live && w'.live[id] == w.live[id]
  {
    OthersLive(plans, w, id, a);
    HolderLast(plans, w, id);
    if Reached(w, a.id, a) {
      if a.Take? && w.live[a.id].inv.run.value.slot !in w.folder.claims {
        FreeIsNext(plans, w, a.id);
        NotEndedNotNext(plans, w.folder, w.live[a.id].inv.run.value.hash);
      }
      LiveFits(plans, w, a.id);
      OthersFolder(plans, w, a);
    }
  }

  /** A holder that goes on keeps its invocation and what it has settled. */
  ghost predicate Stays(w: World, id: nat, w': World)
    requires id in w.live
  {
    && id in w'.live && w'.live[id].inv == w.live[id].inv && Holder(w'.live[id])
    && w'.folder.claims == w.folder.claims && w'.folder.master == w.folder.master
    && (Settled(w.live[id].at).Some? ==> Settled(w'.live[id].at) == Settled(w.live[id].at) && w'.folder == w.folder)
  }

  /** A holder that ends its slot logs what it has settled, and leaves. */
  ghost predicate EndsWith(w: World, id: nat, w': World, e: Event)
    requires id in w.live && w.live[id].inv.run.Some?
  {
    && w'.live == Leave(w, id).live && w'.folder == Appended(w.folder, e)
    && e.slot == w.live[id].inv.run.value.slot && e.Terminal()
    && (Settled(w.live[id].at).Some? ==> Settled(w.live[id].at) == Some(e.spend))
  }

  lemma {:induction false} OwnOpening(plans: Plans, w: World, id: nat, a: Action)
    requires Reached(w, id, a) && Holder(w.live[id]) && a.id == id && (a.Verify? || a.ReadTruth?)
    ensures Stays(w, id, Next(plans, w, a))
            || EndsWith(w, id, Next(plans, w, a), Event(w.live[id].inv.run.value.slot, FAILED, None, Some(NOTHING)))
  {
  }

  lemma {:induction false} OwnReading(plans: Plans, w: World, id: nat, a: Action)
    requires Reached(w, id, a) && Holder(w.live[id]) && a.id == id && (a.Open? || a.Parse?)
    ensures Stays(w, id, Next(plans, w, a))
            || EndsWith(w, id, Next(plans, w, a), Event(w.live[id].inv.run.value.slot, FAILED, None, Some(NOTHING)))
  {
  }

  lemma {:induction false} OwnRow(plans: Plans, w: World, id: nat, a: Action)
    requires Reached(w, id, a) && Holder(w.live[id]) && a.id == id && (a.Launch? || a.Announce?)
    ensures Stays(w, id, Next(plans, w, a))
  {
  }

  lemma {:induction false} OwnCalls(plans: Plans, w: World, id: nat, a: Action)
    requires Reached(w, id, a) && Holder(w.live[id]) && a.id == id && (a.Execute? || a.Mark?)
    ensures Stays(w, id, Next(plans, w, a))
  {
  }

  lemma {:induction false} OwnEnd(plans: Plans, w: World, id: nat, a: Action)
    requires Reached(w, id, a) && Holder(w.live[id]) && a.id == id && a.Conclude?
    ensures EndsWith(w, id, Next(plans, w, a), LastEvent(w.live[id]))
  {
  }

  /** Each step of a holder, crashes apart, keeps it going or ends its slot. */
  lemma {:induction false} OwnStep(plans: Plans, w: World, id: nat, a: Action) returns (e: Event)
    requires Reached(w, id, a) && Holder(w.live[id]) && a.id == id && !a.Crash?
    ensures Stays(w, id, Next(plans, w, a)) || EndsWith(w, id, Next(plans, w, a), e)
  {
    e := if a.Conclude? then LastEvent(w.live[id]) else Event(w.live[id].inv.run.value.slot, FAILED, None, Some(NOTHING));
    if a.Verify? || a.ReadTruth? {
      OwnOpening(plans, w, id, a);
    } else if a.Open? || a.Parse? {
      OwnReading(plans, w, id, a);
    } else if a.Launch? || a.Announce? {
      OwnRow(plans, w, id, a);
    } else if a.Execute? || a.Mark? {
      OwnCalls(plans, w, id, a);
    } else {
      OwnEnd(plans, w, id, a);
    }
  }

  lemma {:induction false} StaysStuck(plans: Plans, w: World, id: nat, w': World)
    requires Sound(plans, w) && id in w.live && Holder(w.live[id]) && !CanGoOn(plans, w)
    requires Sound(plans, w') && Stays(w, id, w')
    ensures !CanGoOn(plans, w')
  {
    assert !MayEndWell(plans, w.folder, w.live[id]);
    assert !MayEndWell(plans, w'.folder, w'.live[id]);
  }

  lemma {:induction false} StuckSpend(plans: Plans, w: World, id: nat, w': World, e: Event)
    requires id in w.live && Holder(w.live[id]) && !MayEndWell(plans, w.folder, w.live[id]) && EndsWith(w, id, w', e)
    ensures var plan := plans(w.live[id].inv.run.value.hash);
            Slots(w.folder) >= plan.slots || !Leaves(w.folder.events, plan, Slots(w.folder), e.spend)
  {
  }

  lemma {:induction false} EndsNotNext(plans: Plans, f: Folder, hash: string, e: Event)
    requires FolderSound(plans, f) && Slots(f) > 0 && !Ended(History(f.events, Slots(f))) && e.slot == Slots(f) && e.Terminal()
    requires FolderSound(plans, Appended(f, e)) && InTurn(f.events, plans(hash), Slots(f))
    requires Slots(f) >= plans(hash).slots || !Leaves(f.events, plans(hash), Slots(f), e.spend)
    ensures !NextInTurn(plans, Appended(f, e), hash)
  {
    EndedInTurn(plans, f, e, plans(hash));
  }

  lemma {:induction false} EndsStuck(plans: Plans, w: World, id: nat, w': World, e: Event)
    requires Sound(plans, w) && id in w.live && Holder(w.live[id]) && !CanGoOn(plans, w)
    requires Sound(plans, w') && EndsWith(w, id, w', e)
    ensures !CanGoOn(plans, w') && w'.folder.claims == w.folder.claims
  {
    HolderLast(plans, w, id);
    NothingLeaves(plans, w, id);
    StuckSpend(plans, w, id, w', e);
    EndsNotNext(plans, w.folder, w.live[id].inv.run.value.hash, e);
    OnlyOwnHash(plans, w, id, w', e);
  }

  lemma {:induction false} OnlyOwnHash(plans: Plans, w: World, id: nat, w': World, e: Event)
    requires id in w.live && Holder(w.live[id]) && w.folder.master == Some(w.live[id].inv.run.value.hash)
    requires EndsWith(w, id, w', e) && NoHolders(w'.live)
    requires !NextInTurn(plans, w'.folder, w.live[id].inv.run.value.hash)
    ensures !CanGoOn(plans, w')
  {
    forall hash
      ensures !NextInTurn(plans, w'.folder, hash)
    {
      assert hash != w.live[id].inv.run.value.hash ==> w'.folder.master != Some(hash);
    }
  }

  lemma {:induction false} OthersStuck(plans: Plans, w: World, id: nat, a: Action)
    requires Sound(plans, w) && id in w.live && Holder(w.live[id]) && a.id != id
    requires !CanGoOn(plans, w) && Sound(plans, Next(plans, w, a))
    ensures !CanGoOn(plans, Next(plans, w, a)) && Next(plans, w, a).folder.claims == w.folder.claims
  {
    OthersStep(plans, w, id, a);
    StaysStuck(plans, w, id, Next(plans, w, a));
  }

  lemma {:induction false} OwnStuck(plans: Plans, w: World, id: nat, a: Action)
    requires Sound(plans, w) && Reached(w, id, a) && Holder(w.live[id]) && a.id == id && !a.Crash?
    requires !CanGoOn(plans, w) && Sound(plans, Next(plans, w, a))
    ensures !CanGoOn(plans, Next(plans, w, a)) && Next(plans, w, a).folder.claims == w.folder.claims
  {
    var w' := Next(plans, w, a);
    var e := OwnStep(plans, w, id, a);
    if Stays(w, id, w') {
      StaysStuck(plans, w, id, w');
    } else {
      EndsStuck(plans, w, id, w', e);
    }
  }

  lemma {:induction false} HolderStuck(plans: Plans, w: World, id: nat, a: Action) returns (w': World)
    requires Sound(plans, w) && id in w.live && Holder(w.live[id]) && !CanGoOn(plans, w)
    ensures w' == Next(plans, w, a) && Sound(plans, w') && !CanGoOn(plans, w') && w'.folder.claims == w.folder.claims
  {
    w' := NextSound(plans, w, a);
    if a.id != id {
      OthersStuck(plans, w, id, a);
    } else if a.Crash? {
      w' := CrashEndsCampaign(plans, w, id);
    } else if Reached(w, id, a) {
      OwnStuck(plans, w, id, a);
    }
  }

  /** A campaign that cannot go on stays so, and claims nothing. */
  lemma {:induction false} StuckStep(plans: Plans, w: World, a: Action) returns (w': World)
    requires Sound(plans, w) && !CanGoOn(plans, w)
    ensures w' == Next(plans, w, a) && Sound(plans, w') && !CanGoOn(plans, w') && w'.folder.claims == w.folder.claims
  {
    if NoHolders(w.live) {
      w' := OverStep(plans, w, a);
    } else {
      var id :| id in w.live && Holder(w.live[id]);
      w' := HolderStuck(plans, w, id, a);
    }
  }

  lemma {:induction false} StuckForGood(plans: Plans, w: World, actions: seq<Action>) returns (w': World)
    requires Sound(plans, w) && !CanGoOn(plans, w)
    ensures w' == Run(plans, w, actions) && Sound(plans, w') && !CanGoOn(plans, w') && w'.folder.claims == w.folder.claims
  {
    w' := w;
    if actions != [] {
      w' := StuckForGood(plans, w, actions[..|actions| - 1]);
      w' := StuckStep(plans, w', actions[|actions| - 1]);
    }
  }

  /** Some continuation claims a further slot if and only if nobody holds a slot and the next one is in turn, or the
      holder of a slot has not settled its spending, or has settled it below both budgets, with a slot left to claim. */
  lemma {:induction false} ClaimsAgainExactly(plans: Plans, w: World)
    requires Sound(plans, w)
    ensures ClaimsAgain(plans, w) <==> CanGoOn(plans, w)
  {
    if id :| id in w.live && MayEndWell(plans, w.folder, w.live[id]) {
      var actions, w1 := EndSlot(plans, w, id);
      ClaimsAfter(plans, w, actions, w1, w.live[id].inv.run.value.hash);
    } else if hash :| NoHolders(w.live) && NextInTurn(plans, w.folder, hash) {
      ClaimsAfter(plans, w, [], w, hash);
    } else {
      forall actions: seq<Action>
        ensures Run(plans, w, actions).folder.claims == w.folder.claims
      {
        var _ := StuckForGood(plans, w, actions);
      }
    }
  }

  // What a slot records

  lemma {:induction false} ExecutionSettles(plans: Plans, w: World, id: nat, e: Execution) returns (w': World)
    requires Sound(plans, w) && Reached(w, id, Execute(id, e)) && w.live[id].inv.run.Some?
    ensures w' == Next(plans, w, Execute(id, e)) && Sound(plans, w') && id in w'.live && w'.live[id].inv == w.live[id].inv
    ensures w'.folder == w.folder
    ensures var (at, spend) := (w'.live[id].at, if e.Rolled? then Observed(e.cost) else None);
            at == if RunsThrough(plans, w, w.live[id].inv.run, e) then Finished(w.live[id].at.row, spend)
                  else Raised(w.live[id].at.row, spend)
  {
    w' := NextSound(plans, w, Execute(id, e));
  }

  lemma {:induction false} Recorded(plans: Plans, w: World, id: nat) returns (w': World)
    requires Sound(plans, w) && id in w.live && w.live[id].inv.run.Some? && (w.live[id].at.Marked? || w.live[id].at.Finished?)
    ensures w' == Next(plans, w, Conclude(id))
    ensures var p := w.live[id];
            w'.folder == Appended(w.folder, Event(p.inv.run.value.slot, if p.at.Finished? then SUCCEEDED else FAILED,
                                                  Some(p.at.row), p.at.spend))
  {
    SlotConcluded(plans, w, id);
    w' := Next(plans, w, Conclude(id));
  }

  /** The end of a slot whose calls were made records what was observed of them, or nothing known if none was. */
  lemma {:induction false} SlotRecords(plans: Plans, w: World, id: nat, e: Execution) returns (w': World)
    requires Sound(plans, w) && Reached(w, id, Execute(id, e)) && w.live[id].inv.run.Some?
    ensures var w1 := Next(plans, w, Execute(id, e));
            w' == Next(plans, if RunsThrough(plans, w, w.live[id].inv.run, e) then w1 else Next(plans, w1, Mark(id)), Conclude(id))
    ensures w'.folder == Appended(w.folder, Event(w.live[id].inv.run.value.slot,
                                                  if RunsThrough(plans, w, w.live[id].inv.run, e) then SUCCEEDED else FAILED,
                                                  Some(w.live[id].at.row), if e.Rolled? then Observed(e.cost) else None))
  {
    var w1 := ExecutionSettles(plans, w, id, e);
    if w1.live[id].at.Raised? {
      var w0, at := MarkMoves(plans, w1, id);
      var w2 := NextSound(plans, w1, Mark(id));
      w' := Recorded(plans, w2, id);
    } else {
      w' := Recorded(plans, w1, id);
    }
  }
}
