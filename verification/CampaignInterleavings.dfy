/** Every interleaving of evaluations over one campaign folder, including crashes at any point. */
module CampaignInterleavings {
  import opened Strings
  import opened EvaluationCampaign

  /** How far an evaluation has come. */
  datatype Point =
    | Entered | Admitted | Vetted | Holding | Verified
    | HasTruth(wellFormed: bool) | OpenedUp(wellFormed: bool) | Parsed
    | Launched(row: nat) | Running(row: nat)
    | Raised(row: nat, spend: Option<Spend>) | Marked(row: nat, spend: Option<Spend>)
    | Finished(row: nat, spend: Option<Spend>)

  datatype Phase = Phase(inv: Invocation, at: Point)

  /** The durable state, the evaluations under way, and the invocations that have read a truth so far. */
  datatype World = World(folder: Folder, rows: seq<RowStatus>, live: map<nat, Phase>, readers: seq<Invocation>)

  datatype Action =
    | Enter(id: nat, inv: Invocation)
    | Admit(id: nat)
    | Vet(id: nat)
    | Take(id: nat)
    | Verify(id: nat, ok: bool)
    | ReadTruth(id: nat, truth: Truth)
    | Open(id: nat)
    | Parse(id: nat)
    | Launch(id: nat)
    | Announce(id: nat)
    | Execute(id: nat, e: Execution)
    | Mark(id: nat)
    | Conclude(id: nat)
    | Crash(id: nat)

  /** What each campaign content fixes. */
  type Plans = string -> Plan

  const START := World(Folder(None, {}, []), [], map[], [])

  function Put(live: map<nat, Phase>, id: nat, p: Option<Phase>): (live': map<nat, Phase>)
    ensures live'.Keys == if p.Some? then live.Keys + {id} else live.Keys - {id}
    ensures forall k | k in live' :: if k == id then Some(live'[k]) == p else live'[k] == live[k]
  {
    if p.Some? then live[id := p.value] else map k | k in live && k != id :: live[k]
  }

  function Move(w: World, id: nat, at: Point): World
    requires id in w.live
  {
    w.(live := Put(w.live, id, Some(w.live[id].(at := at))))
  }

  function Leave(w: World, id: nat): World {
    w.(live := Put(w.live, id, None))
  }

  /** Evaluations outside a campaign log nothing. */
  function Log(w: World, inv: Invocation, state: State, row: Option<nat>, spend: Option<Spend>): World {
    if inv.run.Some? then w.(folder := Appended(w.folder, Event(inv.run.value.slot, state, row, spend))) else w
  }

  // Steps of an evaluation that has come to the point each of them needs

  predicate Reached(w: World, id: nat, a: Action) {
    id in w.live &&
    var p := w.live[id];
    match a
    case Enter(_, _) => false
    case Admit(_) => p.at.Entered?
    case Vet(_) => p.at.Admitted? && p.inv.run.Some?
    case Take(_) => p.at.Vetted? && p.inv.run.Some?
    case Verify(_, _) => p.at.Holding?
    case ReadTruth(_, _) => p.at.Verified?
    case Open(_) => p.at.HasTruth?
    case Parse(_) => p.at.OpenedUp?
    case Launch(_) => p.at.Parsed?
    case Announce(_) => p.at.Launched?
    case Execute(_, _) => p.at.Running?
    case Mark(_) => p.at.Raised?
    case Conclude(_) => p.at.Marked? || p.at.Finished?
    case Crash(_) => true
  }

  function Admitting(w: World, id: nat): World
    requires Reached(w, id, Admit(id))
  {
    var run := w.live[id].inv.run;
    if run.None? then Move(w, id, Verified)
    else if SameCampaign(w.folder, run.value) then Move(w.(folder := Locked(w.folder, run.value)), id, Admitted)
    else Leave(w, id)
  }

  ghost function Vetting(plans: Plans, w: World, id: nat): World
    requires Reached(w, id, Vet(id))
  {
    var run := w.live[id].inv.run.value;
    if InTurn(w.folder.events, plans(run.hash), run.slot) then Move(w, id, Vetted) else Leave(w, id)
  }

  function Taking(w: World, id: nat): World
    requires Reached(w, id, Take(id))
  {
    var slot := w.live[id].inv.run.value.slot;
    if slot !in w.folder.claims then Move(w.(folder := Claimed(w.folder, slot)), id, Holding) else Leave(w, id)
  }

  function Failing(w: World, id: nat): World
    requires id in w.live
  {
    Leave(Log(w, w.live[id].inv, FAILED, None, Some(NOTHING)), id)
  }

  function Reading(w: World, id: nat, truth: Truth): World
    requires Reached(w, id, ReadTruth(id, truth))
  {
    var inv := w.live[id].inv;
    if truth.Unreadable? then Failing(w, id)
    else
      var w' := w.(readers := w.readers + [inv]);
      if inv.run.Some? && !truth.matches then Failing(w', id) else Move(w', id, HasTruth(truth.wellFormed))
  }

  predicate Shows(rows: seq<RowStatus>, row: nat, status: RowStatus) {
    row < |rows| && rows[row] == status
  }

  /** The spend that a run within a campaign has to answer for. */
  function SpendOf(run: Option<CampaignRun>, e: Execution): Option<Spend> {
    if e.Rolled? && run.Some? then Observed(e.cost) else None
  }

  ghost predicate RunsThrough(plans: Plans, w: World, run: Option<CampaignRun>, e: Execution) {
    && e.Rolled? && !e.raises
    && (run.Some? ==> WithinBudget(w.folder.events, plans(run.value.hash), run.value.slot, e.cost))
  }

  function Closing(w: World, id: nat, row: nat, status: RowStatus, at: Point): World
    requires id in w.live
  {
    Move(if row < |w.rows| then w.(rows := w.rows[row := status]) else w, id, at)
  }

  ghost function Executing(plans: Plans, w: World, id: nat, e: Execution): World
    requires Reached(w, id, Execute(id, e))
  {
    var (run, row) := (w.live[id].inv.run, w.live[id].at.row);
    if RunsThrough(plans, w, run, e) then Closing(w, id, row, DONE, Finished(row, SpendOf(run, e)))
    else Move(w, id, Raised(row, SpendOf(run, e)))
  }

  /** The row is closed only while it is still running. */
  function Marking(w: World, id: nat): World
    requires Reached(w, id, Mark(id))
  {
    var (row, spend) := (w.live[id].at.row, w.live[id].at.spend);
    if Shows(w.rows, row, RUNNING) then Closing(w, id, row, ROW_FAILED, Marked(row, spend))
    else Move(w, id, Marked(row, spend))
  }

  function Concluding(w: World, id: nat): World
    requires Reached(w, id, Conclude(id))
  {
    var p := w.live[id];
    Leave(Log(w, p.inv, if p.at.Finished? then SUCCEEDED else FAILED, Some(p.at.row), p.at.spend), id)
  }

  predicate MayEnter(plans: Plans, w: World, id: nat, inv: Invocation) {
    id !in w.live && Guarded(inv) && (inv.run.Some? ==> 1 <= inv.run.value.slot <= plans(inv.run.value.hash).slots)
  }

  /** One step; a step that is not enabled changes nothing. */
  ghost function Next(plans: Plans, w: World, a: Action): World {
    if a.Enter? then if MayEnter(plans, w, a.id, a.inv) then w.(live := Put(w.live, a.id, Some(Phase(a.inv, Entered)))) else w
    else if !Reached(w, a.id, a) then w
    else
      match a
      case Admit(id) => Admitting(w, id)
      case Vet(id) => Vetting(plans, w, id)
      case Take(id) => Taking(w, id)
      case Verify(id, ok) => if ok then Move(w, id, Verified) else Failing(w, id)
      case ReadTruth(id, truth) => Reading(w, id, truth)
      case Open(id) => Move(Log(w, w.live[id].inv, OPENED, None, None), id, OpenedUp(w.live[id].at.wellFormed))
      case Parse(id) => if w.live[id].at.wellFormed then Move(w, id, Parsed) else Failing(w, id)
      case Launch(id) => Move(w.(rows := w.rows + [RUNNING]), id, Launched(|w.rows|))
      case Announce(id) =>
        Move(Log(w, w.live[id].inv, STARTED, Some(w.live[id].at.row), None), id, Running(w.live[id].at.row))
      case Execute(id, e) => Executing(plans, w, id, e)
      case Mark(id) => Marking(w, id)
      case Conclude(id) => Concluding(w, id)
      case Crash(id) => Leave(w, id)
  }

  ghost function Run(plans: Plans, w: World, actions: seq<Action>): World {
    if actions == [] then w else Next(plans, Run(plans, w, actions[..|actions| - 1]), actions[|actions| - 1])
  }

  // The folder

  function Slots(f: Folder): nat {
    |f.claims|
  }

  ghost predicate Ordered(events: seq<Event>) {
    forall i, j | 0 <= i < j < |events| :: events[i].slot <= events[j].slot
  }

  /** The last slot succeeded only within the budgets, counting everything spent before it. */
  ghost predicate Paid(events: seq<Event>, plan: Plan, slot: nat) {
    History(events, slot) == [OPENED, STARTED, SUCCEEDED] ==>
      var t := Terminals(events);
      AllKnown(t) && Total(t).attempts <= plan.attemptsTotal && Total(t).cost <= plan.cost
  }

  /** Slots are claimed in order, each after the one before has ended within what the budgets leave; the log follows
      the same order, and each slot goes through its lifecycle. */
  ghost predicate FolderSound(plans: Plans, f: Folder) {
    && f.claims == Required(Slots(f) + 1)
    && Ordered(f.events) && (forall i | 0 <= i < |f.events| :: 1 <= f.events[i].slot <= Slots(f))
    && (forall slot: nat :: Lifecycle(History(f.events, slot)))
    && (forall slot: nat | 1 <= slot < Slots(f) :: Ended(History(f.events, slot)))
    && (Slots(f) > 0 ==> f.master.Some? && InTurn(f.events, plans(f.master.value), Slots(f))
                         && Paid(f.events, plans(f.master.value), Slots(f)))
  }

  lemma {:induction false} HistoryNext(events: seq<Event>, e: Event, slot: nat)
    ensures History(events + [e], slot) == if e.slot == slot then History(events, slot) + [e.state] else History(events, slot)
    ensures Terminals(events + [e]) == if e.Terminal() then Terminals(events)[e.slot := e] else Terminals(events)
  {
  }

  lemma {:induction false} LifecycleNext(h: seq<State>, next: State)
    ensures Lifecycle(h + [next]) <==> Lifecycle(h) && Allowed(h, next)
    ensures Allowed(h, next) ==> !Ended(h)
  {
    var all := h + [next];
    assert all[..|h|] == h;
    forall i | 0 <= i < |h|
      ensures Allowed(all[..i], all[i]) <==> Allowed(h[..i], h[i])
    {
      assert all[..i] == h[..i];
    }
    if Lifecycle(all) {
      assert Allowed(all[..|h|], all[|h|]);
      forall i | 0 <= i < |h|
        ensures Allowed(h[..i], h[i])
      {
        assert Allowed(all[..i], all[i]);
      }
    }
  }

  /** A slot has a terminal event exactly when its history has ended. */
  lemma {:induction false} TerminalEnded(events: seq<Event>, slot: nat)
    requires Lifecycle(History(events, slot))
    ensures slot in Terminals(events) <==> Ended(History(events, slot))
  {
    if events != [] {
      var front, e := events[..|events| - 1], events[|events| - 1];
      assert events == front + [e];
      HistoryNext(front, e, slot);
      if e.slot == slot {
        LifecycleNext(History(front, slot), e.state);
      }
      TerminalEnded(front, slot);
    }
  }

  lemma {:induction false} EarlierKept(events: seq<Event>, e: Event, slot: nat)
    requires slot <= e.slot
    ensures Earlier(events + [e], slot) == Earlier(events, slot)
    ensures Required(slot) <= Terminals(events + [e]).Keys <==> Required(slot) <= Terminals(events).Keys
  {
  }

  /** What was in turn stays in turn while the last slot goes on. */
  lemma {:induction false} InTurnKept(plans: Plans, f: Folder, e: Event, plan: Plan, slot: nat)
    requires FolderSound(plans, f) && e.slot == Slots(f) > 0 && !Ended(History(f.events, e.slot))
    requires InTurn(f.events, plan, slot)
    ensures slot <= Slots(f) && InTurn(f.events + [e], plan, slot)
  {
    TerminalEnded(f.events, e.slot);
    assert slot > e.slot ==> e.slot in Required(slot);
    EarlierKept(f.events, e, slot);
  }

  lemma {:induction false} HistoriesNext(events: seq<Event>, e: Event)
    requires Allowed(History(events, e.slot), e.state) && forall slot: nat :: Lifecycle(History(events, slot))
    ensures forall slot: nat :: Lifecycle(History(events + [e], slot))
    ensures forall slot: nat | slot != e.slot :: History(events + [e], slot) == History(events, slot)
  {
    LifecycleNext(History(events, e.slot), e.state);
    forall slot: nat
      ensures Lifecycle(History(events + [e], slot))
      ensures slot != e.slot ==> History(events + [e], slot) == History(events, slot)
    {
      HistoryNext(events, e, slot);
      assert Lifecycle(History(events, slot));
    }
  }

  lemma {:induction false} OrderedNext(events: seq<Event>, e: Event)
    requires Ordered(events) && e.slot > 0 && forall i | 0 <= i < |events| :: 1 <= events[i].slot <= e.slot
    ensures Ordered(events + [e]) && forall i | 0 <= i <= |events| :: 1 <= (events + [e])[i].slot <= e.slot
  {
  }

  /** The log may go on with the next state of the last slot. */
  lemma {:induction false} AppendSound(plans: Plans, f: Folder, e: Event)
    requires FolderSound(plans, f) && e.slot == Slots(f) > 0 && Allowed(History(f.events, e.slot), e.state)
    requires f.master.Some? && Paid(f.events + [e], plans(f.master.value), e.slot)
    ensures FolderSound(plans, Appended(f, e))
  {
    HistoriesNext(f.events, e);
    OrderedNext(f.events, e);
    InTurnKept(plans, f, e, plans(f.master.value), e.slot);
  }

  lemma {:induction false} NoEvents(events: seq<Event>, slot: nat)
    requires forall i | 0 <= i < |events| :: events[i].slot != slot
    ensures History(events, slot) == []
  {
    if events != [] {
      NoEvents(events[..|events| - 1], slot);
    }
  }

  lemma {:induction false} RequiredCount(slot: nat)
    ensures |Required(slot)| == if slot == 0 then 0 else slot - 1
  {
    if slot > 1 {
      RequiredCount(slot - 1);
    }
  }

  /** The slots that have ended are among the claimed ones. */
  lemma {:induction false} TerminalClaimed(plans: Plans, f: Folder, slot: nat)
    requires FolderSound(plans, f)
    ensures slot in Terminals(f.events) <==> Ended(History(f.events, slot))
    ensures Ended(History(f.events, slot)) ==> 1 <= slot <= Slots(f)
  {
    TerminalEnded(f.events, slot);
    if !(1 <= slot <= Slots(f)) {
      NoEvents(f.events, slot);
    }
  }

  lemma {:induction false} NextFree(plans: Plans, f: Folder, plan: Plan, slot: nat)
    requires FolderSound(plans, f) && InTurn(f.events, plan, slot) && 1 <= slot && slot !in f.claims
    ensures slot == Slots(f) + 1 && (slot > 1 ==> Ended(History(f.events, slot - 1)))
  {
    if slot > 1 {
      assert slot - 1 in Terminals(f.events);
      TerminalClaimed(plans, f, slot - 1);
    }
    assert slot in Required(Slots(f) + 1) <==> slot <= Slots(f);
  }

  /** Only the next slot can be taken, and only once every claimed slot has ended. */
  lemma {:induction false} ClaimNext(plans: Plans, f: Folder, plan: Plan, slot: nat)
    requires FolderSound(plans, f) && InTurn(f.events, plan, slot) && 1 <= slot && slot !in f.claims
    ensures slot == Slots(f) + 1 && History(f.events, slot) == []
    ensures forall k | 1 <= k <= Slots(f) :: Ended(History(f.events, k))
  {
    NextFree(plans, f, plan, slot);
    NoEvents(f.events, slot);
    forall k | 1 <= k <= Slots(f)
      ensures Ended(History(f.events, k))
    {
      if k == Slots(f) {
        assert k == slot - 1;
      }
    }
  }

  lemma {:induction false} ClaimedSlots(f: Folder, slot: nat)
    requires f.claims == Required(Slots(f) + 1) && slot == Slots(f) + 1
    ensures Claimed(f, slot).claims == Required(slot + 1) && Slots(Claimed(f, slot)) == slot
  {
    RequiredCount(slot + 1);
    assert Required(slot + 1) == Required(slot) + {slot};
  }

  lemma {:induction false} ClaimSound(plans: Plans, f: Folder, slot: nat)
    requires FolderSound(plans, f) && f.master.Some? && InTurn(f.events, plans(f.master.value), slot)
    requires 1 <= slot && slot !in f.claims
    ensures FolderSound(plans, Claimed(f, slot)) && Slots(Claimed(f, slot)) == slot
  {
    ClaimNext(plans, f, plans(f.master.value), slot);
    ClaimedSlots(f, slot);
  }

  // The evaluations under way

  /** An evaluation that has claimed its slot. */
  predicate Holder(p: Phase) {
    p.inv.run.Some? && !(p.at.Entered? || p.at.Admitted? || p.at.Vetted?)
  }

  /** What an evaluation at this point has put on the log for its slot. */
  function Logged(at: Point): seq<State> {
    match at
    case Entered | Admitted | Vetted | Holding | Verified | HasTruth(_) => []
    case OpenedUp(_) | Parsed | Launched(_) => [OPENED]
    case Running(_) | Raised(_, _) | Marked(_, _) | Finished(_, _) => [OPENED, STARTED]
  }

  /** The spend is known and fits both budgets together with what all other slots spent. */
  ghost predicate Affordable(events: seq<Event>, plan: Plan, slot: nat, spend: Option<Spend>) {
    var others := Without(Terminals(events), slot);
    && spend.Some? && AllKnown(others)
    && Total(others).attempts + spend.value.attempts <= plan.attemptsTotal
    && Total(others).cost + spend.value.cost <= plan.cost
  }

  ghost predicate SlotSound(plans: Plans, f: Folder, run: CampaignRun, at: Point) {
    && 1 <= run.slot <= plans(run.hash).slots
    && (!at.Entered? ==> f.master == Some(run.hash))
    && (at.Vetted? ==> InTurn(f.events, plans(run.hash), run.slot))
    && (at.Finished? ==> Affordable(f.events, plans(run.hash), run.slot, at.spend))
  }

  ghost predicate PhaseSound(plans: Plans, f: Folder, p: Phase) {
    && Guarded(p.inv)
    && (p.inv.run.Some? ==> SlotSound(plans, f, p.inv.run.value, p.at))
    && (p.inv.run.None? ==> !(p.at.Admitted? || p.at.Vetted? || p.at.Holding?))
    && (Holder(p) ==> p.inv.run.value.slot == Slots(f) && History(f.events, Slots(f)) == Logged(p.at))
  }

  /** At most one evaluation holds a slot, the last one. */
  ghost predicate LiveSound(plans: Plans, f: Folder, live: map<nat, Phase>) {
    && (forall id | id in live :: PhaseSound(plans, f, live[id]))
    && (forall id, id' | id in live && id' in live && Holder(live[id]) && Holder(live[id']) :: id == id')
  }

  lemma {:induction false} LivePut(plans: Plans, f: Folder, live: map<nat, Phase>, id: nat, p: Option<Phase>)
    requires LiveSound(plans, f, live)
    requires p.Some? ==> PhaseSound(plans, f, p.value)
    requires p.Some? && Holder(p.value) ==> forall k | k in live && k != id :: !Holder(live[k])
    ensures LiveSound(plans, f, Put(live, id, p))
  {
  }

  lemma {:induction false} NotEnded(p: Phase)
    ensures !Ended(Logged(p.at))
  {
  }

  lemma {:induction false} LiveAppend(plans: Plans, f: Folder, live: map<nat, Phase>, id: nat, e: Event)
    requires FolderSound(plans, f) && LiveSound(plans, f, live) && id in live && Holder(live[id]) && e.slot == Slots(f)
    ensures LiveSound(plans, Appended(f, e), Put(live, id, None))
  {
    NotEnded(live[id]);
    assert PhaseSound(plans, f, live[id]);
    forall k | k in live && k != id
      ensures PhaseSound(plans, Appended(f, e), live[k])
    {
      var p := live[k];
      assert PhaseSound(plans, f, p) && !Holder(p);
      if p.at.Vetted? {
        InTurnKept(plans, f, e, plans(p.inv.run.value.hash), p.inv.run.value.slot);
      }
    }
  }

  lemma {:induction false} LiveClaim(plans: Plans, f: Folder, live: map<nat, Phase>, slot: nat)
    requires LiveSound(plans, f, live) && forall k | 1 <= k <= Slots(f) :: Ended(History(f.events, k))
    ensures LiveSound(plans, Claimed(f, slot), live) && forall k | k in live :: !Holder(live[k])
  {
  }

  // Readers of the truth

  /** Whoever reads a truth is allowed to, and within a campaign holds a slot of its own. */
  ghost predicate ReadersSound(f: Folder, readers: seq<Invocation>) {
    && (forall i | 0 <= i < |readers| :: Guarded(readers[i]) && (readers[i].run.Some? ==> readers[i].run.value.slot in f.claims))
    && (forall i, j | 0 <= i < j < |readers| && readers[i].run.Some? && readers[j].run.Some? ::
          readers[i].run.value.slot != readers[j].run.value.slot)
  }

  predicate Unread(readers: seq<Invocation>, slot: nat) {
    forall i | 0 <= i < |readers| && readers[i].run.Some? :: readers[i].run.value.slot != slot
  }

  ghost predicate YetToRead(readers: seq<Invocation>, live: map<nat, Phase>) {
    forall id | id in live && Holder(live[id]) && (live[id].at.Holding? || live[id].at.Verified?) ::
      Unread(readers, live[id].inv.run.value.slot)
  }

  // Run rows

  function RowOf(at: Point): Option<(nat, RowStatus)> {
    match at
    case Launched(row) => Some((row, RUNNING))
    case Running(row) => Some((row, RUNNING))
    case Raised(row, _) => Some((row, RUNNING))
    case Marked(row, _) => Some((row, ROW_FAILED))
    case Finished(row, _) => Some((row, DONE))
    case _ => None
  }

  /** Every evaluation under way has a row of its own in the state it left it in. */
  ghost predicate RowsSound(rows: seq<RowStatus>, live: map<nat, Phase>) {
    && (forall id | id in live && RowOf(live[id].at).Some? ::
          Shows(rows, RowOf(live[id].at).value.0, RowOf(live[id].at).value.1))
    && (forall id, id' | id in live && id' in live && id != id' && RowOf(live[id].at).Some? && RowOf(live[id'].at).Some? ::
          RowOf(live[id].at).value.0 != RowOf(live[id'].at).value.0)
  }

  /** A run whose end is on the log has its row closed accordingly. */
  ghost predicate Closed(rows: seq<RowStatus>, e: Event) {
    e.Terminal() && e.row.Some? ==> Shows(rows, e.row.value, if e.state == SUCCEEDED then DONE else ROW_FAILED)
  }

  ghost predicate LogClosed(rows: seq<RowStatus>, events: seq<Event>) {
    forall i | 0 <= i < |events| :: Closed(rows, events[i])
  }

  ghost predicate Sound(plans: Plans, w: World) {
    && FolderSound(plans, w.folder) && LiveSound(plans, w.folder, w.live)
    && ReadersSound(w.folder, w.readers) && YetToRead(w.readers, w.live)
    && RowsSound(w.rows, w.live) && LogClosed(w.rows, w.folder.events)
  }

  // Every step keeps the protocol sound

  /** No other evaluation holds a slot, or the row this phase is about. */
  ghost predicate Alone(live: map<nat, Phase>, id: nat, p: Phase) {
    && (Holder(p) ==> forall k | k in live && k != id :: !Holder(live[k]))
    && (RowOf(p.at).Some? ==> forall k | k in live && k != id && RowOf(live[k].at).Some? ::
                                RowOf(live[k].at).value.0 != RowOf(p.at).value.0)
  }

  ghost predicate Fits(plans: Plans, w: World, p: Phase) {
    && PhaseSound(plans, w.folder, p)
    && (Holder(p) && (p.at.Holding? || p.at.Verified?) ==> Unread(w.readers, p.inv.run.value.slot))
    && (RowOf(p.at).Some? ==> Shows(w.rows, RowOf(p.at).value.0, RowOf(p.at).value.1))
  }

  lemma {:induction false} PutSound(plans: Plans, w: World, id: nat, p: Option<Phase>) returns (w': World)
    requires Sound(plans, w) && (p.Some? ==> Fits(plans, w, p.value) && Alone(w.live, id, p.value))
    ensures w' == w.(live := Put(w.live, id, p)) && Sound(plans, w')
  {
    LivePut(plans, w.folder, w.live, id, p);
    w' := w.(live := Put(w.live, id, p));
    RowsPut(w.rows, w.live, id, p);
  }

  lemma {:induction false} RowsPut(rows: seq<RowStatus>, live: map<nat, Phase>, id: nat, p: Option<Phase>)
    requires RowsSound(rows, live)
    requires p.Some? && RowOf(p.value.at).Some? ==> Shows(rows, RowOf(p.value.at).value.0, RowOf(p.value.at).value.1)
    requires p.Some? ==> Alone(live, id, p.value)
    ensures RowsSound(rows, Put(live, id, p))
  {
  }

  lemma {:induction false} PutTwice(live: map<nat, Phase>, id: nat, p: Option<Phase>)
    ensures Put(Put(live, id, None), id, p) == Put(live, id, p)
  {
  }

  /** What the soundness of the world says about one evaluation. */
  lemma {:induction false} LiveFits(plans: Plans, w: World, id: nat)
    requires Sound(plans, w) && id in w.live
    ensures Fits(plans, w, w.live[id]) && Alone(w.live, id, w.live[id])
  {
  }

  lemma {:induction false} MoveSound(plans: Plans, w: World, id: nat, at: Point) returns (w': World)
    requires Sound(plans, w) && id in w.live && Fits(plans, w, w.live[id].(at := at))
    requires Holder(w.live[id].(at := at)) ==> Holder(w.live[id])
    requires RowOf(at).Some? ==> RowOf(w.live[id].at).Some? && RowOf(at).value.0 == RowOf(w.live[id].at).value.0
    ensures w' == Move(w, id, at) && Sound(plans, w')
  {
    LiveFits(plans, w, id);
    w' := PutSound(plans, w, id, Some(w.live[id].(at := at)));
  }

  lemma {:induction false} LeaveSound(plans: Plans, w: World, id: nat) returns (w': World)
    requires Sound(plans, w)
    ensures w' == Leave(w, id) && Sound(plans, w')
  {
    w' := PutSound(plans, w, id, None);
  }

  lemma {:induction false} PaidNext(events: seq<Event>, plan: Plan, e: Event)
    requires e.state == SUCCEEDED ==> Affordable(events, plan, e.slot, e.spend)
    ensures Paid(events + [e], plan, e.slot)
  {
    HistoryNext(events, e, e.slot);
    var h := History(events, e.slot) + [e.state];
    assert h[|h| - 1] == e.state;
    if e.state == SUCCEEDED {
      var t, t' := Terminals(events), Terminals(events + [e]);
      TotalLess(t', e.slot);
      assert Without(t', e.slot) == Without(t, e.slot);
      assert forall k | k in t' && k != e.slot :: k in Without(t, e.slot) && t'[k] == Without(t, e.slot)[k];
    }
  }

  /** The holder of a slot logs its next state; it is then to move on or to leave. */
  lemma {:induction false} LogWorld(plans: Plans, w: World, id: nat, e: Event) returns (w': World)
    requires Sound(plans, w) && id in w.live && Holder(w.live[id]) && e.slot == w.live[id].inv.run.value.slot
    requires Allowed(Logged(w.live[id].at), e.state) && Closed(w.rows, e)
    requires e.state == SUCCEEDED ==>
               Affordable(w.folder.events, plans(w.live[id].inv.run.value.hash), e.slot, e.spend)
    ensures w' == Leave(w, id).(folder := Appended(w.folder, e)) && Sound(plans, w')
    ensures w'.folder.master == Some(w.live[id].inv.run.value.hash) && e.slot == Slots(w'.folder)
    ensures History(w'.folder.events, e.slot) == Logged(w.live[id].at) + [e.state]
    ensures forall k | k in w'.live :: !Holder(w'.live[k])
  {
    var run := w.live[id].inv.run.value;
    LiveFits(plans, w, id);
    PaidNext(w.folder.events, plans(run.hash), e);
    AppendSound(plans, w.folder, e);
    LiveAppend(plans, w.folder, w.live, id, e);
    HistoryNext(w.folder.events, e, e.slot);
    w' := PutSound(plans, w, id, None);
    w' := w'.(folder := Appended(w.folder, e));
  }

  lemma {:induction false} LogLeave(
    plans: Plans, w: World, id: nat, state: State, row: Option<nat>, spend: Option<Spend>)
    returns (w': World)
    requires Sound(plans, w) && id in w.live && (w.live[id].inv.run.Some? ==> Holder(w.live[id]))
    requires w.live[id].inv.run.Some? ==>
               var e := Event(w.live[id].inv.run.value.slot, state, row, spend);
               && Allowed(Logged(w.live[id].at), state) && Closed(w.rows, e)
               && (state == SUCCEEDED ==> Affordable(w.folder.events, plans(w.live[id].inv.run.value.hash), e.slot, spend))
    ensures w' == Leave(Log(w, w.live[id].inv, state, row, spend), id) && Sound(plans, w')
    ensures w.live[id].inv.run.Some? ==> forall k | k in w'.live :: !Holder(w'.live[k])
  {
    if w.live[id].inv.run.Some? {
      w' := LogWorld(plans, w, id, Event(w.live[id].inv.run.value.slot, state, row, spend));
    } else {
      w' := LeaveSound(plans, w, id);
    }
  }

  /** Logging a non-terminal state and moving on to a point that stands for it. */
  lemma {:induction false} LogMove(
    plans: Plans, w: World, id: nat, state: State, row: Option<nat>, at: Point) returns (w': World)
    requires Sound(plans, w) && id in w.live && (w.live[id].inv.run.Some? ==> Holder(w.live[id]))
    requires state in {OPENED, STARTED} && Allowed(Logged(w.live[id].at), state)
    requires Logged(at) == Logged(w.live[id].at) + [state] && !at.Finished?
    requires RowOf(at) == RowOf(w.live[id].at)
    ensures w' == Move(Log(w, w.live[id].inv, state, row, None), id, at) && Sound(plans, w')
  {
    LiveFits(plans, w, id);
    var p := w.live[id].(at := at);
    if p.inv.run.Some? {
      var w1 := LogWorld(plans, w, id, Event(p.inv.run.value.slot, state, row, None));
      w' := PutSound(plans, w1, id, Some(p));
      PutTwice(w.live, id, Some(p));
    } else {
      w' := PutSound(plans, w, id, Some(p));
    }
  }

  /** Changing the row of an evaluation that has left. */
  lemma {:induction false} RowWorld(plans: Plans, w: World, row: nat, status: RowStatus) returns (w': World)
    requires Sound(plans, w) && Shows(w.rows, row, RUNNING)
    requires forall k | k in w.live && RowOf(w.live[k].at).Some? :: RowOf(w.live[k].at).value.0 != row
    ensures w' == w.(rows := w.rows[row := status]) && Sound(plans, w')
  {
    w' := w.(rows := w.rows[row := status]);
    forall i | 0 <= i < |w.folder.events|
      ensures Closed(w'.rows, w.folder.events[i])
    {
      assert Closed(w.rows, w.folder.events[i]);
    }
  }

  lemma {:induction false} NewRow(plans: Plans, w: World) returns (w': World)
    requires Sound(plans, w)
    ensures w' == w.(rows := w.rows + [RUNNING]) && Sound(plans, w')
  {
    w' := w.(rows := w.rows + [RUNNING]);
    forall i | 0 <= i < |w.folder.events|
      ensures Closed(w'.rows, w.folder.events[i])
    {
      assert Closed(w.rows, w.folder.events[i]);
    }
  }

  /** An evaluation moves on and takes its row from running to closed. */
  lemma {:induction false} CloseRow(plans: Plans, w: World, id: nat, status: RowStatus, at: Point) returns (w': World)
    requires Sound(plans, w) && id in w.live && (w.live[id].inv.run.Some? ==> Holder(w.live[id]))
    requires w.live[id].at.Running? || w.live[id].at.Raised?
    requires RowOf(at) == Some((w.live[id].at.row, status)) && Logged(at) == Logged(w.live[id].at)
    requires at.Finished? && w.live[id].inv.run.Some? ==>
               var run := w.live[id].inv.run.value; Affordable(w.folder.events, plans(run.hash), run.slot, at.spend)
    ensures w' == Closing(w, id, w.live[id].at.row, status, at) && Sound(plans, w')
  {
    LiveFits(plans, w, id);
    var p := w.live[id].(at := at);
    var w1 := LeaveSound(plans, w, id);
    var w2 := RowWorld(plans, w1, w.live[id].at.row, status);
    w' := PutSound(plans, w2, id, Some(p));
    PutTwice(w.live, id, Some(p));
  }

  lemma {:induction false} RowsInUse(plans: Plans, w: World)
    requires Sound(plans, w)
    ensures forall k | k in w.live && RowOf(w.live[k].at).Some? :: RowOf(w.live[k].at).value.0 < |w.rows|
  {
  }

  lemma {:induction false} LaunchFits(plans: Plans, w: World, p: Phase)
    requires Fits(plans, w, p) && p.at.Parsed?
    ensures Fits(plans, w.(rows := w.rows + [RUNNING]), p.(at := Launched(|w.rows|)))
    ensures Holder(p.(at := Launched(|w.rows|))) <==> Holder(p)
  {
  }

  lemma {:induction false} LaunchSound(plans: Plans, w: World, id: nat) returns (w': World)
    requires Sound(plans, w) && Reached(w, id, Launch(id))
    ensures w' == Move(w.(rows := w.rows + [RUNNING]), id, Launched(|w.rows|)) && Sound(plans, w')
  {
    LiveFits(plans, w, id);
    RowsInUse(plans, w);
    LaunchFits(plans, w, w.live[id]);
    var w1 := NewRow(plans, w);
    w' := PutSound(plans, w1, id, Some(w.live[id].(at := Launched(|w.rows|))));
  }

  lemma {:induction false} StillFits(plans: Plans, w: World, p: Phase, at: Point)
    requires Fits(plans, w, p) && p.at.Running? && at.Raised? && at.row == p.at.row
    ensures Fits(plans, w, p.(at := at)) && (Holder(p.(at := at)) <==> Holder(p)) && RowOf(at) == RowOf(p.at)
  {
  }

  lemma {:induction false} RaiseSound(plans: Plans, w: World, id: nat, spend: Option<Spend>) returns (w': World)
    requires Sound(plans, w) && id in w.live && w.live[id].at.Running?
    ensures w' == Move(w, id, Raised(w.live[id].at.row, spend)) && Sound(plans, w')
  {
    var at := Raised(w.live[id].at.row, spend);
    LiveFits(plans, w, id);
    StillFits(plans, w, w.live[id], at);
    w' := MoveSound(plans, w, id, at);
  }

  lemma {:induction false} CompletesAffordably(plans: Plans, w: World, run: CampaignRun, e: Execution)
    requires RunsThrough(plans, w, Some(run), e)
    ensures Affordable(w.folder.events, plans(run.hash), run.slot, SpendOf(Some(run), e))
  {
  }

  lemma {:induction false} CompleteSound(plans: Plans, w: World, id: nat, e: Execution) returns (w': World)
    requires Sound(plans, w) && id in w.live && w.live[id].at.Running? && RunsThrough(plans, w, w.live[id].inv.run, e)
    ensures var (run, row) := (w.live[id].inv.run, w.live[id].at.row);
            w' == Closing(w, id, row, DONE, Finished(row, SpendOf(run, e)))
    ensures Sound(plans, w')
  {
    var run := w.live[id].inv.run;
    if run.Some? {
      CompletesAffordably(plans, w, run.value, e);
    }
    w' := CloseRow(plans, w, id, DONE, Finished(w.live[id].at.row, SpendOf(run, e)));
  }

  lemma {:induction false} ExecuteSound(plans: Plans, w: World, id: nat, e: Execution) returns (w': World)
    requires Sound(plans, w) && Reached(w, id, Execute(id, e))
    ensures w' == Executing(plans, w, id, e) && Sound(plans, w')
  {
    if RunsThrough(plans, w, w.live[id].inv.run, e) {
      w' := CompleteSound(plans, w, id, e);
    } else {
      w' := RaiseSound(plans, w, id, SpendOf(w.live[id].inv.run, e));
    }
  }

  lemma {:induction false} RaisedRuns(plans: Plans, w: World, id: nat)
    requires Sound(plans, w) && id in w.live && w.live[id].at.Raised?
    ensures Shows(w.rows, w.live[id].at.row, RUNNING)
  {
    LiveFits(plans, w, id);
  }

  lemma {:induction false} MarkCloses(w: World, id: nat)
    requires Reached(w, id, Mark(id)) && Shows(w.rows, w.live[id].at.row, RUNNING)
    ensures Marking(w, id) == Closing(w, id, w.live[id].at.row, ROW_FAILED, Marked(w.live[id].at.row, w.live[id].at.spend))
  {
  }

  lemma {:induction false} CloseMarked(plans: Plans, w: World, id: nat) returns (w': World)
    requires Sound(plans, w) && id in w.live && w.live[id].at.Raised?
    ensures var at := w.live[id].at; w' == Closing(w, id, at.row, ROW_FAILED, Marked(at.row, at.spend)) && Sound(plans, w')
  {
    w' := CloseRow(plans, w, id, ROW_FAILED, Marked(w.live[id].at.row, w.live[id].at.spend));
  }

  lemma {:induction false} MarkSound(plans: Plans, w: World, id: nat) returns (w': World)
    requires Sound(plans, w) && Reached(w, id, Mark(id))
    ensures w' == Marking(w, id) && Sound(plans, w')
  {
    RaisedRuns(plans, w, id);
    MarkCloses(w, id);
    w' := CloseMarked(plans, w, id);
  }

  lemma {:induction false} LockWorld(plans: Plans, w: World, run: CampaignRun) returns (w': World)
    requires Sound(plans, w) && SameCampaign(w.folder, run)
    ensures w' == w.(folder := Locked(w.folder, run)) && Sound(plans, w') && w'.folder.master == Some(run.hash)
  {
    w' := w.(folder := Locked(w.folder, run));
    forall k | k in w.live
      ensures PhaseSound(plans, w'.folder, w.live[k])
    {
      assert PhaseSound(plans, w.folder, w.live[k]);
    }
  }

  lemma {:induction false} AdmitSound(plans: Plans, w: World, id: nat) returns (w': World)
    requires Sound(plans, w) && Reached(w, id, Admit(id))
    ensures w' == Admitting(w, id) && Sound(plans, w')
  {
    LiveFits(plans, w, id);
    var run := w.live[id].inv.run;
    if run.None? {
      w' := MoveSound(plans, w, id, Verified);
    } else if SameCampaign(w.folder, run.value) {
      var w1 := LockWorld(plans, w, run.value);
      w' := MoveSound(plans, w1, id, Admitted);
    } else {
      w' := LeaveSound(plans, w, id);
    }
  }

  lemma {:induction false} ClaimWorld(plans: Plans, w: World, run: CampaignRun) returns (w': World)
    requires Sound(plans, w) && w.folder.master == Some(run.hash) && 1 <= run.slot
    requires InTurn(w.folder.events, plans(run.hash), run.slot) && run.slot !in w.folder.claims
    ensures w' == w.(folder := Claimed(w.folder, run.slot)) && Sound(plans, w')
    ensures Slots(w'.folder) == run.slot && History(w'.folder.events, run.slot) == [] && Unread(w.readers, run.slot)
    ensures forall k | k in w.live :: !Holder(w.live[k])
  {
    w' := w.(folder := Claimed(w.folder, run.slot));
    ClaimNext(plans, w.folder, plans(run.hash), run.slot);
    ClaimSound(plans, w.folder, run.slot);
    LiveClaim(plans, w.folder, w.live, run.slot);
  }

  lemma {:induction false} TakeSound(plans: Plans, w: World, id: nat) returns (w': World)
    requires Sound(plans, w) && Reached(w, id, Take(id))
    ensures w' == Taking(w, id) && Sound(plans, w')
  {
    LiveFits(plans, w, id);
    var run := w.live[id].inv.run.value;
    if run.slot !in w.folder.claims {
      var w1 := ClaimWorld(plans, w, run);
      w' := PutSound(plans, w1, id, Some(w.live[id].(at := Holding)));
    } else {
      w' := LeaveSound(plans, w, id);
    }
  }

  lemma {:induction false} ReadWorld(plans: Plans, w: World, id: nat, inv: Invocation) returns (w': World)
    requires Sound(plans, w) && Guarded(inv)
    requires inv.run.Some? ==> inv.run.value.slot in w.folder.claims && Unread(w.readers, inv.run.value.slot)
                               && forall k | k in w.live :: !Holder(w.live[k])
    ensures w' == w.(readers := w.readers + [inv]) && Sound(plans, w')
  {
    w' := w.(readers := w.readers + [inv]);
  }

  /** Logging a failure that needs no run row, and leaving. */
  lemma {:induction false} FailSound(plans: Plans, w: World, id: nat) returns (w': World)
    requires Sound(plans, w) && id in w.live && (w.live[id].inv.run.Some? ==> Holder(w.live[id]))
    ensures w' == Failing(w, id) && Sound(plans, w')
    ensures w.live[id].inv.run.Some? ==> forall k | k in w'.live :: !Holder(w'.live[k])
  {
    NotEnded(w.live[id]);
    w' := LogLeave(plans, w, id, FAILED, None, Some(NOTHING));
  }

  lemma {:induction false} VetSound(plans: Plans, w: World, id: nat) returns (w': World)
    requires Sound(plans, w) && Reached(w, id, Vet(id))
    ensures w' == Vetting(plans, w, id) && Sound(plans, w')
  {
    LiveFits(plans, w, id);
    var run := w.live[id].inv.run.value;
    if InTurn(w.folder.events, plans(run.hash), run.slot) {
      w' := MoveSound(plans, w, id, Vetted);
    } else {
      w' := LeaveSound(plans, w, id);
    }
  }

  lemma {:induction false} VerifySound(plans: Plans, w: World, id: nat, ok: bool) returns (w': World)
    requires Sound(plans, w) && Reached(w, id, Verify(id, ok))
    ensures w' == (if ok then Move(w, id, Verified) else Failing(w, id)) && Sound(plans, w')
  {
    LiveFits(plans, w, id);
    if ok {
      w' := MoveSound(plans, w, id, Verified);
    } else {
      w' := FailSound(plans, w, id);
    }
  }

  /** The reader of a truth is entitled to it, and the first under its slot. */
  lemma {:induction false} Entitled(plans: Plans, w: World, id: nat)
    requires Sound(plans, w) && id in w.live && w.live[id].at.Verified?
    ensures var inv := w.live[id].inv;
            Guarded(inv) && (inv.run.Some? ==> inv.run.value.slot in w.folder.claims && Unread(w.readers, inv.run.value.slot)
                                               && forall k | k in w.live && k != id :: !Holder(w.live[k]))
  {
  }

  lemma {:induction false} ReadOn(plans: Plans, w: World, id: nat, wellFormed: bool) returns (w': World)
    requires Sound(plans, w) && id in w.live && w.live[id].at.Verified?
    ensures w' == Move(w.(readers := w.readers + [w.live[id].inv]), id, HasTruth(wellFormed)) && Sound(plans, w')
  {
    var p := w.live[id].(at := HasTruth(wellFormed));
    LiveFits(plans, w, id);
    Entitled(plans, w, id);
    var w1 := LeaveSound(plans, w, id);
    var w2 := ReadWorld(plans, w1, id, p.inv);
    w' := PutSound(plans, w2, id, Some(p));
    PutTwice(w.live, id, Some(p));
  }

  lemma {:induction false} ReadSound(plans: Plans, w: World, id: nat, truth: Truth) returns (w': World)
    requires Sound(plans, w) && Reached(w, id, ReadTruth(id, truth))
    ensures w' == Reading(w, id, truth) && Sound(plans, w')
  {
    var inv := w.live[id].inv;
    if truth.Unreadable? {
      w' := FailSound(plans, w, id);
    } else if inv.run.Some? && !truth.matches {
      Entitled(plans, w, id);
      var w1 := FailSound(plans, w, id);
      w' := ReadWorld(plans, w1, id, inv);
    } else {
      w' := ReadOn(plans, w, id, truth.wellFormed);
    }
  }

  lemma {:induction false} OpenSound(plans: Plans, w: World, id: nat) returns (w': World)
    requires Sound(plans, w) && Reached(w, id, Open(id))
    ensures w' == Move(Log(w, w.live[id].inv, OPENED, None, None), id, OpenedUp(w.live[id].at.wellFormed)) && Sound(plans, w')
  {
    w' := LogMove(plans, w, id, OPENED, None, OpenedUp(w.live[id].at.wellFormed));
  }

  lemma {:induction false} ParseSound(plans: Plans, w: World, id: nat) returns (w': World)
    requires Sound(plans, w) && Reached(w, id, Parse(id))
    ensures w' == (if w.live[id].at.wellFormed then Move(w, id, Parsed) else Failing(w, id)) && Sound(plans, w')
  {
    LiveFits(plans, w, id);
    if w.live[id].at.wellFormed {
      w' := MoveSound(plans, w, id, Parsed);
    } else {
      w' := FailSound(plans, w, id);
    }
  }

  lemma {:induction false} AnnounceSound(plans: Plans, w: World, id: nat) returns (w': World)
    requires Sound(plans, w) && Reached(w, id, Announce(id))
    ensures var row := w.live[id].at.row; w' == Move(Log(w, w.live[id].inv, STARTED, Some(row), None), id, Running(row))
    ensures Sound(plans, w')
  {
    var row := w.live[id].at.row;
    w' := LogMove(plans, w, id, STARTED, Some(row), Running(row));
  }

  lemma {:induction false} ConcludeSound(plans: Plans, w: World, id: nat) returns (w': World)
    requires Sound(plans, w) && Reached(w, id, Conclude(id))
    ensures w' == Concluding(w, id) && Sound(plans, w')
  {
    LiveFits(plans, w, id);
    NotEnded(w.live[id]);
    var at := w.live[id].at;
    w' := LogLeave(plans, w, id, if at.Finished? then SUCCEEDED else FAILED, Some(at.row), at.spend);
  }

  lemma {:induction false} EnterSound(plans: Plans, w: World, id: nat, inv: Invocation) returns (w': World)
    requires Sound(plans, w) && MayEnter(plans, w, id, inv)
    ensures w' == w.(live := Put(w.live, id, Some(Phase(inv, Entered)))) && Sound(plans, w')
  {
    w' := PutSound(plans, w, id, Some(Phase(inv, Entered)));
  }

  lemma {:induction false} TruthSound(plans: Plans, w: World, a: Action) returns (w': World)
    requires Sound(plans, w) && Reached(w, a.id, a) && (a.Verify? || a.ReadTruth? || a.Open? || a.Parse?)
    ensures w' == Next(plans, w, a) && Sound(plans, w')
  {
    match a
    case Verify(id, ok) => w' := VerifySound(plans, w, id, ok);
    case ReadTruth(id, truth) => w' := ReadSound(plans, w, id, truth);
    case Open(id) => w' := OpenSound(plans, w, id);
    case Parse(id) => w' := ParseSound(plans, w, id);
  }

  lemma {:induction false} NextSound(plans: Plans, w: World, a: Action) returns (w': World)
    requires Sound(plans, w)
    ensures w' == Next(plans, w, a) && Sound(plans, w')
  {
    w' := w;
    if a.Enter? {
      if MayEnter(plans, w, a.id, a.inv) {
        w' := EnterSound(plans, w, a.id, a.inv);
      }
    } else if Reached(w, a.id, a) {
      match a
      case Admit(id) => w' := AdmitSound(plans, w, id);
      case Vet(id) => w' := VetSound(plans, w, id);
      case Take(id) => w' := TakeSound(plans, w, id);
      case Verify(_, _) => w' := TruthSound(plans, w, a);
      case ReadTruth(_, _) => w' := TruthSound(plans, w, a);
      case Open(_) => w' := TruthSound(plans, w, a);
      case Parse(_) => w' := TruthSound(plans, w, a);
      case Launch(id) => w' := LaunchSound(plans, w, id);
      case Announce(id) => w' := AnnounceSound(plans, w, id);
      case Execute(id, e) => w' := ExecuteSound(plans, w, id, e);
      case Mark(id) => w' := MarkSound(plans, w, id);
      case Conclude(id) => w' := ConcludeSound(plans, w, id);
      case Crash(id) => w' := LeaveSound(plans, w, id);
    }
  }

  lemma {:induction false} RunSound(plans: Plans, w: World, actions: seq<Action>) returns (w': World)
    requires Sound(plans, w)
    ensures w' == Run(plans, w, actions) && Sound(plans, w')
  {
    w' := w;
    if actions != [] {
      w' := RunSound(plans, w, actions[..|actions| - 1]);
      w' := NextSound(plans, w', actions[|actions| - 1]);
    }
  }

  lemma {:induction false} StartSound(plans: Plans)
    ensures Sound(plans, START)
  {
  }

  /** Whatever the interleaving and wherever evaluations crash, the protocol stays sound. */
  lemma {:induction false} EveryRunSound(plans: Plans, actions: seq<Action>)
    ensures Sound(plans, Run(plans, START, actions))
  {
    StartSound(plans);
    var _ := RunSound(plans, START, actions);
  }

  // The main results

  /** Slots are claimed in order, one at a time: all but the last have ended, and whoever holds a slot holds the last one,
      alone, while it has not ended. The log follows the slots, and each slot goes through its lifecycle. */
  lemma {:induction false} OneSlotAtATime(plans: Plans, actions: seq<Action>, slot: nat)
    ensures var w := Run(plans, START, actions);
            && (slot in w.folder.claims <==> 1 <= slot <= Slots(w.folder))
            && (1 <= slot < Slots(w.folder) ==> Ended(History(w.folder.events, slot)))
            && Lifecycle(History(w.folder.events, slot)) && Ordered(w.folder.events)
            && (forall id, id' | id in w.live && id' in w.live && Holder(w.live[id]) && Holder(w.live[id']) :: id == id')
            && (forall id | id in w.live && Holder(w.live[id]) ::
                  w.live[id].inv.run.value.slot == Slots(w.folder) && !Ended(History(w.folder.events, Slots(w.folder))))
  {
    EveryRunSound(plans, actions);
    var w := Run(plans, START, actions);
    forall id | id in w.live && Holder(w.live[id])
      ensures w.live[id].inv.run.value.slot == Slots(w.folder) && !Ended(History(w.folder.events, Slots(w.folder)))
    {
      assert PhaseSound(plans, w.folder, w.live[id]);
      NotEnded(w.live[id]);
    }
  }

  /** A truth of a held-out store is read only when that was allowed and under a claimed slot, and each slot reads
      a truth at most once. */
  lemma {:induction false} TruthReadOncePerSlot(plans: Plans, actions: seq<Action>, i: nat)
    requires i < |Run(plans, START, actions).readers|
    ensures var w := Run(plans, START, actions);
            var inv := w.readers[i];
            && (inv.holdout ==> inv.allow && inv.run.Some?)
            && (inv.run.Some? ==> inv.run.value.slot in w.folder.claims)
            && (forall j | 0 <= j < |w.readers| && j != i && inv.run.Some? && w.readers[j].run.Some? ::
                  w.readers[j].run.value.slot != inv.run.value.slot)
  {
    EveryRunSound(plans, actions);
  }

  /** Before the last slot both budgets were not used up; a last slot that succeeded kept within them, so that only a
      slot that failed can have overrun them. */
  lemma {:induction false} OverrunOnlyByFailure(plans: Plans, actions: seq<Action>)
    requires Slots(Run(plans, START, actions).folder) > 0
    ensures var f := Run(plans, START, actions).folder;
            f.master.Some? &&
            var (plan, last) := (plans(f.master.value), Slots(f));
            var (before, all) := (Earlier(f.events, last), Terminals(f.events));
            && AllKnown(before) && Total(before).attempts < plan.attemptsTotal && Total(before).cost < plan.cost
            && (History(f.events, last) == [OPENED, STARTED, SUCCEEDED] ==>
                  AllKnown(all) && Total(all).attempts <= plan.attemptsTotal && Total(all).cost <= plan.cost)
            && all.Keys == if Ended(History(f.events, last)) then f.claims else f.claims - {last}
  {
    EveryRunSound(plans, actions);
    TerminalSlots(plans, Run(plans, START, actions).folder);
  }

  lemma {:induction false} TerminalSlots(plans: Plans, f: Folder)
    requires FolderSound(plans, f) && Slots(f) > 0
    ensures var last := Slots(f);
            Terminals(f.events).Keys == if Ended(History(f.events, last)) then f.claims else f.claims - {last}
  {
    forall slot: nat
      ensures slot in Terminals(f.events) <==> slot in f.claims && (slot < Slots(f) || Ended(History(f.events, slot)))
    {
      TerminalClaimed(plans, f, slot);
    }
  }

  /** When a run is on the log as failed or succeeded, its row says so, and an evaluation on its way to log a failure
      has closed its row first. */
  lemma {:induction false} RowsClosed(plans: Plans, actions: seq<Action>)
    ensures var w := Run(plans, START, actions);
            && (forall i | 0 <= i < |w.folder.events| && w.folder.events[i].Terminal() && w.folder.events[i].row.Some? ::
                  Shows(w.rows, w.folder.events[i].row.value, if w.folder.events[i].state == SUCCEEDED then DONE else ROW_FAILED))
            && (forall id | id in w.live && w.live[id].at.Marked? :: Shows(w.rows, w.live[id].at.row, ROW_FAILED))
  {
    EveryRunSound(plans, actions);
    var w := Run(plans, START, actions);
    forall i | 0 <= i < |w.folder.events|
      ensures Closed(w.rows, w.folder.events[i])
    {
    }
  }

  /** A closed row stays as it is. */
  lemma {:induction false} ClosedRowStays(plans: Plans, w: World, actions: seq<Action>, row: nat) returns (w': World)
    requires Sound(plans, w) && row < |w.rows| && w.rows[row] != RUNNING
    ensures w' == Run(plans, w, actions) && Sound(plans, w') && Shows(w'.rows, row, w.rows[row])
  {
    w' := w;
    if actions != [] {
      w' := ClosedRowStays(plans, w, actions[..|actions| - 1], row);
      var a := actions[|actions| - 1];
      ClosedRowStep(plans, w', a, row);
      w' := NextSound(plans, w', a);
    }
  }

  lemma {:induction false} ClosingKeeps(w: World, id: nat, own: nat, status: RowStatus, at: Point, row: nat)
    requires id in w.live && row < |w.rows| && own != row
    ensures Shows(Closing(w, id, own, status, at).rows, row, w.rows[row])
  {
  }

  /** The row an evaluation is about to close is its own, and running. */
  lemma {:induction false} OwnRow(plans: Plans, w: World, id: nat)
    requires Sound(plans, w) && id in w.live && (w.live[id].at.Running? || w.live[id].at.Raised?)
    ensures Shows(w.rows, w.live[id].at.row, RUNNING)
  {
  }

  lemma {:induction false} OtherRows(plans: Plans, w: World, a: Action)
    requires !a.Execute? && !a.Mark?
    ensures Next(plans, w, a).rows == if a.Launch? && Reached(w, a.id, a) then w.rows + [RUNNING] else w.rows
  {
  }

  lemma {:induction false} ClosedRowStep(plans: Plans, w: World, a: Action, row: nat)
    requires Sound(plans, w) && row < |w.rows| && w.rows[row] != RUNNING
    ensures Shows(Next(plans, w, a).rows, row, w.rows[row])
  {
    if !a.Execute? && !a.Mark? {
      OtherRows(plans, w, a);
    } else if Reached(w, a.id, a) {
      var (at, run) := (w.live[a.id].at, w.live[a.id].inv.run);
      OwnRow(plans, w, a.id);
      if a.Execute? {
        ClosingKeeps(w, a.id, at.row, DONE, Finished(at.row, SpendOf(run, a.e)), row);
      } else {
        ClosingKeeps(w, a.id, at.row, ROW_FAILED, Marked(at.row, at.spend), row);
      }
    }
  }
}
