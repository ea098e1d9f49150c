/** Any number of reviewers reading, deciding and publishing at once. */
module ReviewProtocol {
  import opened Strings
  import opened ReviewLog

  /** A reviewer has read a state, or holds the state it is about to publish. */
  datatype Phase = HasRead(intake: Intake) | ToPublish(intake: Intake)

  datatype World = World(files: Directory, live: map<nat, Phase>)

  datatype Action =
    | Read(id: nat, latest: nat)
    | ReadEmpty(id: nat)
    | Decide(id: nat, expected: string, request: string, decision: Decision, at: string)
    | Keep(id: nat)
    | Save(id: nat)
    | Crash(id: nat)

  const EMPTY := World(map[], map[])

  /** One step; a step that is not enabled, or whose checks fail, ends the reviewer or changes nothing. */
  ghost function Next(q: Queue, w: World, a: Action): World {
    match a
    case Read(id, r) =>
      if id !in w.live && IsLatest(w.files, r) && q.Checked(w.files[r]) then w.(live := w.live[id := HasRead(w.files[r])])
      else w
    case ReadEmpty(id) =>
      if id !in w.live && w.files == map[] then w.(live := w.live[id := HasRead(q.Start())]) else w
    case Decide(id, expected, request, decision, at) =>
      if id in w.live && w.live[id].HasRead? then
        match q.Record(w.live[id].intake, expected, request, decision, at)
        case Accepted(i) => w.(live := w.live[id := ToPublish(i)])
        case Refused => w.(live := w.live - {id})
      else w
    case Keep(id) =>
      if id in w.live && w.live[id].HasRead? then w.(live := w.live[id := ToPublish(w.live[id].intake)]) else w
    case Save(id) =>
      if id in w.live && w.live[id].ToPublish? then
        World(Publish(w.files, w.live[id].intake), w.live - {id})
      else w
    case Crash(id) => w.(live := w.live - {id})
  }

  ghost function Run(q: Queue, w: World, actions: seq<Action>): World {
    if actions == [] then w else Next(q, Run(q, w, actions[..|actions| - 1]), actions[|actions| - 1])
  }

  /** A state whose history replays: possibly one revision too late to be read again. */
  ghost predicate Genuine(q: Queue, i: Intake) {
    var p := i.payload;
    && 0 <= p.revision == |p.events| <= 10001
    && q.Replay(p.events) == Some(i)
  }

  /** `next` carries the history of `i` on by one event. */
  ghost predicate Succeeds(i: Intake, next: Intake) {
    |next.payload.events| == |i.payload.events| + 1 && i.payload.events <= next.payload.events
  }

  /** The state is the start, or published. */
  ghost predicate Grounded(q: Queue, files: Directory, i: Intake) {
    i == q.Start() || Published(files, i)
  }

  /** The state is grounded, or succeeds a grounded one. */
  ghost predicate Publishable(q: Queue, files: Directory, i: Intake) {
    Genuine(q, i) && (Grounded(q, files, i) || exists before :: Grounded(q, files, before) && Genuine(q, before) && Succeeds(before, i))
  }

  /** Revision `r`, if it is there, carries on the revision before it, which only revision 1 may lack. */
  ghost predicate Linked(files: Directory, r: nat) {
    r in files && r > 0 ==> if r - 1 in files then Succeeds(files[r - 1], files[r]) else r == 1
  }

  ghost predicate LinksSound(files: Directory) {
    forall r: nat :: Linked(files, r)
  }

  ghost predicate FilesSound(q: Queue, files: Directory) {
    && (forall r | r in files :: Genuine(q, files[r]) && files[r].payload.revision == r)
    && LinksSound(files)
  }

  ghost predicate PhaseSound(q: Queue, files: Directory, p: Phase) {
    if p.HasRead? then Genuine(q, p.intake) && Grounded(q, files, p.intake) else Publishable(q, files, p.intake)
  }

  ghost predicate Sound(q: Queue, w: World) {
    FilesSound(q, w.files) && forall id | id in w.live :: PhaseSound(q, w.files, w.live[id])
  }

  lemma {:induction false} StartGenuine(q: Queue)
    ensures Genuine(q, q.Start())
  {
  }

  /** A new decision carries a checked history on by one event; a repeated request changes nothing. */
  lemma {:induction false} RecordResult(
    q: Queue, i: Intake, expected: string, request: string, decision: Decision, at: string)
    ensures var out := q.Record(i, expected, request, decision, at);
            out.Accepted? ==> Genuine(q, i) && Genuine(q, out.intake) && (out.intake == i || Succeeds(i, out.intake))
  {
  }

  /** Publishing keeps everything that was published. */
  lemma {:induction false} PublishKeeps(q: Queue, files: Directory, i: Intake, p: Phase)
    requires PhaseSound(q, files, p)
    ensures PhaseSound(q, Publish(files, i), p)
  {
  }

  /** A new file carries on its predecessor. */
  lemma {:induction false} NewFileLinked(q: Queue, files: Directory, i: Intake)
    requires FilesSound(q, files) && Publishable(q, files, i) && i.payload.revision !in files
    ensures Linked(files[i.payload.revision := i], i.payload.revision)
  {
  }

  /** Only the missing revision 0 can come after its successor. */
  lemma {:induction false} NewFileLast(q: Queue, files: Directory, i: Intake)
    requires FilesSound(q, files) && Genuine(q, i) && i.payload.revision !in files
    ensures Linked(files[i.payload.revision := i], i.payload.revision + 1)
  {
    var n := i.payload.revision;
    assert Linked(files, n + 1);
    if n + 1 in files {
      assert Genuine(q, files[1]) && i.payload.events == [];
    }
  }

  lemma {:induction false} OtherLinks(files: Directory, i: Intake, n: nat, r: nat)
    requires Linked(files, r) && r != n && r != n + 1
    ensures Linked(files[n := i], r)
  {
    var files' := files[n := i];
    assert r in files' <==> r in files;
    assert r > 0 ==> (r - 1 in files' <==> r - 1 in files);
  }

  lemma {:induction false} AllLinked(files: Directory, i: Intake, n: nat)
    requires LinksSound(files) && Linked(files[n := i], n) && Linked(files[n := i], n + 1)
    ensures LinksSound(files[n := i])
  {
    var files' := files[n := i];
    forall r: nat
      ensures Linked(files', r)
    {
      if r != n && r != n + 1 {
        OtherLinks(files, i, n, r);
      }
    }
  }

  lemma {:induction false} PublishSound(q: Queue, files: Directory, i: Intake)
    requires FilesSound(q, files) && Publishable(q, files, i)
    ensures FilesSound(q, Publish(files, i))
  {
    var n := i.payload.revision;
    if n !in files {
      NewFileLinked(q, files, i);
      NewFileLast(q, files, i);
      AllLinked(files, i, n);
    }
  }

  /** Moving one reviewer on, or dropping it, while the directory stays. */
  lemma {:induction false} PhaseMoved(q: Queue, w: World, id: nat, p: Option<Phase>)
    requires Sound(q, w) && (p.Some? ==> PhaseSound(q, w.files, p.value))
    ensures Sound(q, w.(live := if p.Some? then w.live[id := p.value] else w.live - {id}))
  {
  }

  lemma {:induction false} SaveSound(q: Queue, w: World, id: nat) returns (w': World)
    requires Sound(q, w) && id in w.live && w.live[id].ToPublish?
    ensures w' == World(Publish(w.files, w.live[id].intake), w.live - {id}) && Sound(q, w')
  {
    var i := w.live[id].intake;
    assert PhaseSound(q, w.files, w.live[id]);
    var published := PublishedWorld(q, w, i);
    PhaseMoved(q, published, id, None);
    w' := published.(live := w.live - {id});
  }

  lemma {:induction false} PublishedWorld(q: Queue, w: World, i: Intake) returns (w': World)
    requires Sound(q, w) && Publishable(q, w.files, i)
    ensures w' == w.(files := Publish(w.files, i)) && Sound(q, w')
  {
    w' := w.(files := Publish(w.files, i));
    PublishSound(q, w.files, i);
    forall id | id in w.live
      ensures PhaseSound(q, w'.files, w.live[id])
    {
      PublishKeeps(q, w.files, i, w.live[id]);
    }
  }

  lemma {:induction false} NextSound(q: Queue, w: World, a: Action)
    requires Sound(q, w)
    ensures Sound(q, Next(q, w, a))
  {
    if Next(q, w, a) != w {
      match a
      case Read(id, r) => PhaseMoved(q, w, id, Some(HasRead(w.files[r])));
      case ReadEmpty(id) =>
        StartGenuine(q);
        PhaseMoved(q, w, id, Some(HasRead(q.Start())));
      case Decide(id, expected, request, decision, at) =>
        var i := w.live[id].intake;
        assert PhaseSound(q, w.files, w.live[id]);
        RecordResult(q, i, expected, request, decision, at);
        var out := q.Record(i, expected, request, decision, at);
        PhaseMoved(q, w, id, if out.Accepted? then Some(ToPublish(out.intake)) else None);
      case Keep(id) =>
        assert PhaseSound(q, w.files, w.live[id]);
        PhaseMoved(q, w, id, Some(ToPublish(w.live[id].intake)));
      case Save(id) => var _ := SaveSound(q, w, id);
      case Crash(id) => PhaseMoved(q, w, id, None);
    }
  }

  /** Whatever the interleaving, the directory holds one replayable history without gaps or forks. */
  lemma {:induction false} EveryRunSound(q: Queue, actions: seq<Action>)
    ensures Sound(q, Run(q, EMPTY, actions))
  {
    if actions != [] {
      EveryRunSound(q, actions[..|actions| - 1]);
      NextSound(q, Run(q, EMPTY, actions[..|actions| - 1]), actions[|actions| - 1]);
    }
  }

  // The main results

  /** A published revision never changes and never disappears. */
  lemma {:induction false} PublishedForever(q: Queue, w: World, actions: seq<Action>, r: nat)
    requires r in w.files
    ensures r in Run(q, w, actions).files && Run(q, w, actions).files[r] == w.files[r]
  {
    if actions != [] {
      PublishedForever(q, w, actions[..|actions| - 1], r);
    }
  }

  /** Published revisions have no gap from 1 upward, and each is the exact beginning of every later one. */
  lemma {:induction false} HistoryNeverForks(q: Queue, files: Directory, r: nat, r': nat)
    requires FilesSound(q, files) && r <= r' && r' in files
    ensures r > 0 ==> r in files
    ensures r in files ==> r <= |files[r'].payload.events| && files[r].payload.events == files[r'].payload.events[..r]
  {
    assert Genuine(q, files[r']) && Linked(files, r');
    if r < r' && r' - 1 in files {
      HistoryNeverForks(q, files, r, r' - 1);
      PrefixOfPrefix(files[r' - 1].payload.events, files[r'].payload.events, r);
    }
  }

  lemma {:induction false} PrefixOfPrefix<T>(a: seq<T>, b: seq<T>, n: nat)
    requires a <= b && n <= |a|
    ensures a[..n] == b[..n]
  {
  }

  /** A published decision stays, at its place, in every later revision of every later directory. */
  lemma {:induction false} DecisionsSurvive(q: Queue, before: seq<Action>, after: seq<Action>, r: nat, r': nat)
    requires var w := Run(q, EMPTY, before); 0 < r && r in w.files
    requires var w' := Run(q, Run(q, EMPTY, before), after); r <= r' && r' in w'.files
    ensures var w, w' := Run(q, EMPTY, before), Run(q, Run(q, EMPTY, before), after);
            r <= |w'.files[r'].payload.events| && w'.files[r'].payload.events[..r] == w.files[r].payload.events
  {
    var w := Run(q, EMPTY, before);
    RunSound(q, before, after);
    PublishedForever(q, w, after, r);
    HistoryNeverForks(q, Run(q, w, after).files, r, r');
  }

  lemma {:induction false} RunSound(q: Queue, before: seq<Action>, after: seq<Action>)
    ensures Sound(q, Run(q, Run(q, EMPTY, before), after))
  {
    if after == [] {
      EveryRunSound(q, before);
    } else {
      RunSound(q, before, after[..|after| - 1]);
      NextSound(q, Run(q, Run(q, EMPTY, before), after[..|after| - 1]), after[|after| - 1]);
    }
  }

  /** Of two different states for one revision at most one is ever published: once one is, publishing the other does nothing. */
  lemma {:induction false} OneSuccessor(q: Queue, w: World, actions: seq<Action>, i: Intake, j: Intake)
    requires i != j && i.payload.revision == j.payload.revision && Published(w.files, i)
    ensures !Published(Run(q, w, actions).files, j)
    ensures Publish(Run(q, w, actions).files, j) == Run(q, w, actions).files
  {
    PublishedForever(q, w, actions, i.payload.revision);
  }

  /** In every reachable directory the last name belongs to the highest revision, and to no other. */
  lemma {:induction false} LatestIsHighest(q: Queue, actions: seq<Action>, r: nat)
    ensures var files := Run(q, EMPTY, actions).files;
            IsLatest(files, r) <==> r in files && forall r' | r' in files :: r' <= r
  {
    EveryRunSound(q, actions);
    var files := Run(q, EMPTY, actions).files;
    if r in files {
      forall r' | r' in files
        ensures LexLess(Name(r), Name(r')) <==> r < r'
      {
        assert Genuine(q, files[r]) && Genuine(q, files[r']);
        if r' < r {
          NamesOrdered(r', r);
          LexAsymmetric(Name(r'), Name(r));
        } else if r < r' {
          NamesOrdered(r, r');
        } else {
          LexIrreflexive(Name(r));
        }
      }
    }
  }

  lemma {:induction false} LexAsymmetric(a: string, b: string)
    requires LexLess(a, b)
    ensures !LexLess(b, a)
  {
    if a != [] && a[0] == b[0] {
      LexAsymmetric(a[1..], b[1..]);
    }
  }

  /** A new decision is recorded only on the very state whose hash the reviewer names, when the hash tells payloads apart. */
  lemma {:induction false} DecisionOnExpectedState(
    q: Queue, i: Intake, seen: Intake, request: string, decision: Decision, at: string)
    requires forall a, b :: q.ofPayload(a) == q.ofPayload(b) ==> a == b
    requires seen == q.Sealed(seen.payload)
    requires var out := q.Record(i, seen.hash, request, decision, at); out.Accepted? && out.intake != i
    ensures i == seen
  {
  }

  /** Retrying a filed decision under any expectation returns the state unchanged. */
  lemma {:induction false} RetryIsIdempotent(
    q: Queue, i: Intake, expected: string, request: string, decision: Decision, at: string, at': string)
    requires q.Record(i, expected, request, decision, at).Accepted?
    requires q.Checked(q.Record(i, expected, request, decision, at).intake)
    ensures var i' := q.Record(i, expected, request, decision, at).intake;
            forall expected' :: q.Record(i', expected', request, decision, at') == Accepted(i')
  {
  }

  /** A successor can be read again exactly when its revision is at most 10000: one decision beyond that locks the log. */
  lemma {:induction false} ReadableExactly(
    q: Queue, i: Intake, expected: string, request: string, decision: Decision, at: string)
    requires var out := q.Record(i, expected, request, decision, at); out.Accepted? && out.intake != i
    ensures var out := q.Record(i, expected, request, decision, at);
            q.Checked(out.intake) <==> i.payload.revision < 10000
  {
  }

  lemma {:induction false} LockedLog(q: Queue, actions: seq<Action>, id: nat, r: nat)
    requires 10001 in Run(q, EMPTY, actions).files
    ensures var w := Run(q, EMPTY, actions); Next(q, w, Read(id, r)) == w && Next(q, w, ReadEmpty(id)) == w
  {
    var w := Run(q, EMPTY, actions);
    EveryRunSound(q, actions);
    LatestIsHighest(q, actions, r);
    if IsLatest(w.files, r) {
      assert Genuine(q, w.files[r]);
      assert r == 10001;
    }
  }
}
