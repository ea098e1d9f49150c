/** Evaluation fact challenges: freezing, validating, narrowing, and mapping the facts to published revisions. */
module EvaluationFacts {
  import opened Strings

  const FORMAT := "w-fact-ledger/v1"

  /** The extraction fixture of a fact. */
  datatype Authored = Authored(
    localRef: string, subject: string, attribute: string, value: string, assertion: string,
    conditions: seq<string>, exceptions: seq<string>)

  datatype Fact = Fact(id: string, category: string, assertion: string, authored: Option<Authored>)

  /** A case, with the fact ids each of its turns requires. */
  datatype Case = Case(id: string, turns: seq<seq<string>>)

  /** Everything the content hash covers. */
  datatype Body = Body(
    schema: string, format: Option<string>, parent: Option<string>, status: string, note: string,
    facts: seq<Fact>, cases: seq<Case>)

  datatype Challenge = Challenge(body: Body, hash: Option<string>)

  type Digest = Body -> string

  datatype Error = HashMismatch | DuplicateFact(id: string) | BadFixture(id: string) | UnknownRequired
    | UnknownPatch | MissingHash | NotFactOnly | NotOneRevision(id: string) | Unpublished(id: string) | UnmappedRevision

  datatype Result<T> = Ok(value: T) | Err(error: Error)

  // Validation

  function IdsOf(facts: seq<Fact>): set<string> {
    set i | 0 <= i < |facts| :: facts[i].id
  }

  predicate DistinctIds(facts: seq<Fact>) {
    forall i, j | 0 <= i < j < |facts| :: facts[i].id != facts[j].id
  }

  /** The fixture preserves the approved assertion and the evaluation id. */
  predicate Faithful(f: Fact) {
    f.authored.Some? && f.authored.value.assertion == f.assertion && f.authored.value.localRef == f.id
  }

  predicate AllFaithful(facts: seq<Fact>) {
    forall i | 0 <= i < |facts| :: Faithful(facts[i])
  }

  predicate Known(turn: seq<string>, ids: set<string>) {
    forall i | 0 <= i < |turn| :: turn[i] in ids
  }

  predicate CaseKnown(c: Case, ids: set<string>) {
    forall i | 0 <= i < |c.turns| :: Known(c.turns[i], ids)
  }

  predicate CasesKnown(cases: seq<Case>, ids: set<string>) {
    forall i | 0 <= i < |cases| :: CaseKnown(cases[i], ids)
  }

  predicate Sealed(c: Challenge, digest: Digest) {
    c.hash == Some(digest(c.body))
  }

  /** What a challenge has to satisfy to be run. */
  predicate Valid(c: Challenge, digest: Digest) {
    && c.body.format == Some(FORMAT) && Sealed(c, digest)
    && DistinctIds(c.body.facts) && AllFaithful(c.body.facts) && CasesKnown(c.body.cases, IdsOf(c.body.facts))
  }

  /** The fact carries a fixture under its own id and with its own assertion. */
  predicate Carries(f: Fact) {
    match f.authored
    case None => false
    case Some(Authored(ref, _, _, _, assertion, _, _)) => ref == f.id && assertion == f.assertion
  }

  /** A challenge is valid if and only if it is in fact format under the hash of its content, its facts have as many ids as
      there are facts and carry their fixtures, and every id that a turn requires is one of these. */
  lemma {:induction false} ValidExactly(c: Challenge, digest: Digest)
    ensures var (facts, ids) := (c.body.facts, IdsOf(c.body.facts));
            Valid(c, digest) <==>
            && c.body.format == Some("w-fact-ledger/v1") && c.hash == Some(digest(c.body))
            && |ids| == |facts| && (forall f | f in facts :: Carries(f))
            && forall k | k in c.body.cases :: forall turn | turn in k.turns :: forall id | id in turn :: id in ids
  {
    IdsDistinct(c.body.facts);
    CarriedAll(c.body.facts);
    RequiredAll(c.body.cases, IdsOf(c.body.facts));
  }

  lemma {:induction false} CarriedAll(facts: seq<Fact>)
    ensures AllFaithful(facts) <==> forall f | f in facts :: Carries(f)
  {
    if AllFaithful(facts) {
      forall f | f in facts
        ensures Carries(f)
      {
        var i :| 0 <= i < |facts| && facts[i] == f;
        assert Faithful(facts[i]);
      }
    }
    if forall f | f in facts :: Carries(f) {
      forall i | 0 <= i < |facts|
        ensures Faithful(facts[i])
      {
        assert Carries(facts[i]);
      }
    }
  }

  lemma {:induction false} RequiredAll(cases: seq<Case>, ids: set<string>)
    ensures CasesKnown(cases, ids) <==>
            forall k | k in cases :: forall turn | turn in k.turns :: forall id | id in turn :: id in ids
  {
    forall k: Case
      ensures CaseKnown(k, ids) <==> forall turn | turn in k.turns :: forall id | id in turn :: id in ids
    {
      RequiredInCase(k, ids);
    }
  }

  lemma {:induction false} RequiredInCase(k: Case, ids: set<string>)
    ensures CaseKnown(k, ids) <==> forall turn | turn in k.turns :: forall id | id in turn :: id in ids
  {
    if forall turn | turn in k.turns :: forall id | id in turn :: id in ids {
      forall i | 0 <= i < |k.turns|
        ensures Known(k.turns[i], ids)
      {
        assert k.turns[i] in k.turns;
      }
    }
  }

  lemma {:induction false} IdsDistinct(facts: seq<Fact>)
    ensures |IdsOf(facts)| <= |facts|
    ensures |IdsOf(facts)| == |facts| <==> DistinctIds(facts)
  {
    if facts != [] {
      var front, last := facts[..|facts| - 1], facts[|facts| - 1];
      IdsDistinct(front);
      IdsNext(facts, |front|);
      assert facts[..|facts|] == facts;
      DistinctNext(front, last);
      assert front + [last] == facts;
    } else {
      assert IdsOf(facts) == {};
    }
  }

  lemma {:induction false} DistinctNext(front: seq<Fact>, last: Fact)
    ensures DistinctIds(front + [last]) <==> DistinctIds(front) && last.id !in IdsOf(front)
  {
    var all := front + [last];
    assert all[|front|] == last && forall i | 0 <= i < |front| :: all[i] == front[i];
  }

  lemma {:induction false} IdsNext(facts: seq<Fact>, i: nat)
    requires i < |facts|
    ensures IdsOf(facts[..i + 1]) == IdsOf(facts[..i]) + {facts[i].id}
  {
  }

  method Validate(c: Challenge, digest: Digest) returns (r: Result<()>)
    ensures r.Ok? <==> Valid(c, digest)
  {
    if c.body.format != Some(FORMAT) || c.hash != Some(digest(c.body)) {
      return Err(HashMismatch);
    }
    var facts := c.body.facts;
    var seen: set<string> := {};
    for i := 0 to |facts|
      invariant seen == IdsOf(facts[..i])
      invariant forall j, k | 0 <= j < k < i :: facts[j].id != facts[k].id
      invariant forall j | 0 <= j < i :: Faithful(facts[j])
    {
      IdsNext(facts, i);
      if facts[i].id in seen {
        var j :| 0 <= j < i && facts[..i][j].id == facts[i].id;
        return Err(DuplicateFact(facts[i].id));
      }
      forall j | 0 <= j < i
        ensures facts[j].id != facts[i].id
      {
        assert facts[..i][j].id in seen;
      }
      seen := seen + {facts[i].id};
      if !Faithful(facts[i]) {
        return Err(BadFixture(facts[i].id));
      }
    }
    assert facts[..|facts|] == facts;
    for i := 0 to |c.body.cases|
      invariant forall j | 0 <= j < i :: CaseKnown(c.body.cases[j], seen)
    {
      for k := 0 to |c.body.cases[i].turns|
        invariant forall j | 0 <= j < k :: Known(c.body.cases[i].turns[j], seen)
      {
        if !Known(c.body.cases[i].turns[k], seen) {
          return Err(UnknownRequired);
        }
      }
    }
    r := Ok(());
  }

  // Freezing

  /** The whole approved rule becomes one extracted assertion under an attribute of its own. */
  function Fixture(f: Fact): Fact {
    f.(authored := Some(Authored(f.id, f.category, "rule_" + f.id, f.assertion, f.assertion, [], [])))
  }

  function Fixtures(facts: seq<Fact>): seq<Fact> {
    seq(|facts|, i requires 0 <= i < |facts| => Fixture(facts[i]))
  }

  const FROZEN_SCHEMA := "r_operations_challenge/v2"
  const FROZEN_STATUS := "FACT_FIXTURE_NOT_EVALUATED"
  const FROZEN_NOTE :=
    "Synthetic extraction fixture; actual W ledger/assembly/publication. Not extraction quality or comparable to historical RAW scores."

  function Seal(b: Body, digest: Digest): Challenge {
    Challenge(b, Some(digest(b)))
  }

  /** The frozen form of a challenge, before it is validated. */
  function Frozen(c: Challenge, digest: Digest): Challenge {
    Seal(Body(FROZEN_SCHEMA, Some(FORMAT), c.hash, FROZEN_STATUS, FROZEN_NOTE, Fixtures(c.body.facts), c.body.cases), digest)
  }

  method Freeze(original: Challenge, digest: Digest) returns (r: Result<Challenge>)
    ensures r.Ok? <==> Sealed(original, digest) && DistinctIds(original.body.facts)
                       && CasesKnown(original.body.cases, IdsOf(original.body.facts))
    ensures r.Ok? ==> r.value == Frozen(original, digest) && Valid(r.value, digest)
  {
    if original.hash != Some(digest(original.body)) {
      return Err(HashMismatch);
    }
    var facts := original.body.facts;
    for i := 0 to |facts|
      invariant |facts| == |original.body.facts|
      invariant forall j | 0 <= j < i :: facts[j] == Fixture(original.body.facts[j])
      invariant forall j | i <= j < |facts| :: facts[j] == original.body.facts[j]
    {
      facts := facts[i := Fixture(facts[i])];
    }
    assert facts == Fixtures(original.body.facts);
    var result := Seal(Body(FROZEN_SCHEMA, Some(FORMAT), original.hash, FROZEN_STATUS, FROZEN_NOTE, facts, original.body.cases),
                       digest);
    FixturesKeep(original.body.facts);
    var checked := Validate(result, digest);
    r := if checked.Ok? then Ok(result) else Err(checked.error);
  }

  /** Freezing keeps every fact id, in order, with its category and assertion, and its fixture is faithful. */
  lemma {:induction false} FixturesKeep(facts: seq<Fact>)
    ensures var frozen := Fixtures(facts);
            && |frozen| == |facts| && AllFaithful(frozen) && IdsOf(frozen) == IdsOf(facts)
            && (DistinctIds(frozen) <==> DistinctIds(facts))
            && forall i | 0 <= i < |facts| :: frozen[i].(authored := facts[i].authored) == facts[i]
  {
    var frozen := Fixtures(facts);
    assert forall i | 0 <= i < |facts| :: frozen[i].id == facts[i].id;
  }

  /** Freezing a frozen challenge changes no fact. */
  lemma {:induction false} FreezeTwice(c: Challenge, digest: Digest)
    ensures Frozen(Frozen(c, digest), digest).body.facts == Frozen(c, digest).body.facts
    ensures Frozen(Frozen(c, digest), digest).body.parent == Some(digest(Frozen(c, digest).body))
  {
  }

  // Narrowing to a diagnostic

  /** The fields a patch may fill; an absent field leaves the fact as it is. */
  datatype Fields = Fields(conditions: Option<seq<string>>, exceptions: Option<seq<string>>)

  type Patch = map<string, Fields>

  function PatchFact(f: Fact, patch: Patch): Fact {
    if f.id !in patch || f.authored.None? then f else
      var (p, a) := (patch[f.id], f.authored.value);
      f.(authored := Some(a.(
        conditions := if p.conditions.Some? then p.conditions.value else a.conditions,
        exceptions := if p.exceptions.Some? then p.exceptions.value else a.exceptions)))
  }

  function Patched(facts: seq<Fact>, patch: Patch): seq<Fact> {
    seq(|facts|, i requires 0 <= i < |facts| => PatchFact(facts[i], patch))
  }

  const DIAGNOSTIC_STATUS := "DIAGNOSTIC_SUBSET_NOT_A_CAMPAIGN"

  const NOTE_EDGES: set<char> := {' ', '|'}

  function JoinNotes(a: string, b: string): string {
    RStrip(LStrip(a + " | " + b, NOTE_EDGES), NOTE_EDGES)
  }

  function Diagnostic(source: Challenge, cases: seq<Case>, note: string, patch: Patch, digest: Digest): Challenge {
    var b := source.body;
    Seal(b.(cases := cases, facts := Patched(b.facts, patch), parent := source.hash, status := DIAGNOSTIC_STATUS,
            note := JoinNotes(b.note, note)), digest)
  }

  method ApplyFactPatch(facts: seq<Fact>, patch: Patch) returns (r: Result<seq<Fact>>)
    ensures r.Ok? <==> patch.Keys <= IdsOf(facts)
    ensures r.Ok? ==> r.value == Patched(facts, patch)
  {
    if !(patch.Keys <= IdsOf(facts)) {
      return Err(UnknownPatch);
    }
    var patched: seq<Fact> := [];
    for i := 0 to |facts|
      invariant |patched| == i && forall j | 0 <= j < i :: patched[j] == PatchFact(facts[j], patch)
    {
      patched := patched + [PatchFact(facts[i], patch)];
    }
    r := Ok(patched);
  }

  /** A diagnostic can be built exactly from a fact-format source with distinct, faithful facts (whether or not its own
      hash is right), for known fact ids only; the result is valid, and keeps every fact. */
  method Build(source: Challenge, cases: seq<Case>, note: string, patch: Patch, digest: Digest) returns (r: Result<Challenge>)
    ensures r.Ok? <==>
            var b := source.body;
            && patch.Keys <= IdsOf(b.facts) && source.hash.Some? && b.format == Some(FORMAT)
            && DistinctIds(b.facts) && AllFaithful(b.facts) && CasesKnown(cases, IdsOf(b.facts))
    ensures r.Ok? ==> r.value == Diagnostic(source, cases, note, patch, digest) && Valid(r.value, digest)
  {
    var facts := source.body.facts;
    if patch != map[] {
      var patched := ApplyFactPatch(facts, patch);
      if patched.Err? {
        return Err(patched.error);
      }
      facts := patched.value;
    } else {
      assert facts == Patched(facts, patch);
    }
    if source.hash.None? {
      return Err(MissingHash);
    }
    PatchKeeps(source.body.facts, patch);
    var result := Seal(source.body.(cases := cases, facts := facts, parent := source.hash, status := DIAGNOSTIC_STATUS,
                                    note := JoinNotes(source.body.note, note)), digest);
    var checked := Validate(result, digest);
    r := if checked.Ok? then Ok(result) else Err(checked.error);
  }

  /** A patch keeps every fact id, in order, with its assertion, category and fixture, but for conditions and exceptions. */
  lemma {:induction false} PatchKeeps(facts: seq<Fact>, patch: Patch)
    ensures var patched := Patched(facts, patch);
            && |patched| == |facts| && IdsOf(patched) == IdsOf(facts)
            && (DistinctIds(patched) <==> DistinctIds(facts)) && (AllFaithful(patched) <==> AllFaithful(facts))
            && forall i | 0 <= i < |facts| ::
                 && patched[i].(authored := None) == facts[i].(authored := None)
                 && (patched[i].authored.Some? <==> facts[i].authored.Some?)
                 && (facts[i].authored.Some? ==> patched[i].authored.value.(conditions := [], exceptions := [])
                                                 == facts[i].authored.value.(conditions := [], exceptions := []))
  {
    var patched := Patched(facts, patch);
    forall i | 0 <= i < |facts|
      ensures patched[i].id == facts[i].id && (Faithful(patched[i]) <==> Faithful(facts[i]))
    {
    }
  }

  /** The fields that the patch names, and no others, are filled with what it says. */
  predicate Fills(f: Fact, patched: Fact, p: Fields) {
    match (f.authored, patched.authored)
    case (Some(a), Some(b)) =>
      && (p.conditions.None? ==> b.conditions == a.conditions) && (p.exceptions.None? ==> b.exceptions == a.exceptions)
      && (p.conditions.Some? ==> Some(b.conditions) == p.conditions) && (p.exceptions.Some? ==> Some(b.exceptions) == p.exceptions)
    case _ => f == patched
  }

  /** A patched fact has the conditions and exceptions that the patch names for its id, and otherwise its own. */
  lemma {:induction false} PatchFills(facts: seq<Fact>, patch: Patch, i: nat)
    requires i < |facts|
    ensures Fills(facts[i], Patched(facts, patch)[i], if facts[i].id in patch then patch[facts[i].id] else Fields(None, None))
  {
    assert Patched(facts, patch)[i] == PatchFact(facts[i], patch);
  }

  /** The note has no space or bar at either end. */
  predicate Trim(note: string) {
    note != "" ==> note[0] !in {' ', '|'} && note[|note| - 1] !in {' ', '|'}
  }

  lemma {:induction false} StripEnds(s: string)
    requires s != "" && Trim(s)
    ensures LStrip(s, NOTE_EDGES) == s && RStrip(s, NOTE_EDGES) == s
  {
  }

  /** Notes are joined by a bar, and an empty one leaves no trace. */
  lemma {:induction false} NotesJoined(a: string, b: string)
    requires Trim(a) && Trim(b)
    ensures JoinNotes(a, b) == if a == "" then b else if b == "" then a else a + " | " + b
  {
    var both := a + " | " + b;
    if a == "" {
      EdgesBefore(both, b);
      if b != "" {
        StripEnds(b);
      }
    } else if b == "" {
      EdgesBehind(a);
      StripEnds(a);
      assert both == a + " | " && LStrip(both, NOTE_EDGES) == both;
    } else {
      assert both[|both| - 1] == b[|b| - 1] && both[0] == a[0];
      StripEnds(both);
    }
  }

  lemma {:induction false} EdgesBefore(s: string, b: string)
    requires |s| == |b| + 3 && s[0] in NOTE_EDGES && s[1] in NOTE_EDGES && s[2] in NOTE_EDGES && s[3..] == b
    ensures LStrip(s, NOTE_EDGES) == LStrip(b, NOTE_EDGES)
  {
    EdgeBefore(s, s[1..]);
    EdgeBefore(s[1..], s[2..]);
    EdgeBefore(s[2..], b);
  }

  lemma {:induction false} EdgeBefore(s: string, b: string)
    requires s != "" && s[0] in NOTE_EDGES && s[1..] == b
    ensures LStrip(s, NOTE_EDGES) == LStrip(b, NOTE_EDGES)
  {
  }

  lemma {:induction false} EdgesBehind(a: string)
    ensures RStrip(a + " | ", NOTE_EDGES) == RStrip(a, NOTE_EDGES)
  {
    var s := a + " | ";
    assert s[..|a| + 2] == a + " |" && (a + " |")[..|a| + 1] == a + " " && (a + " ")[..|a|] == a;
  }

  /** The fields of a frozen challenge, and of a diagnostic, beside its facts. */
  lemma {:induction false} Provenance(source: Challenge, cases: seq<Case>, note: string, patch: Patch, digest: Digest)
    ensures var (frozen, diagnostic) := (Frozen(source, digest).body, Diagnostic(source, cases, note, patch, digest).body);
            && frozen.schema == "r_operations_challenge/v2" && frozen.format == Some("w-fact-ledger/v1")
            && frozen.status == "FACT_FIXTURE_NOT_EVALUATED" && frozen.cases == source.body.cases
            && frozen.note ==
               "Synthetic extraction fixture; actual W ledger/assembly/publication. Not extraction quality or comparable to historical RAW scores."
            && diagnostic.schema == source.body.schema && diagnostic.format == source.body.format
            && diagnostic.status == "DIAGNOSTIC_SUBSET_NOT_A_CAMPAIGN" && diagnostic.cases == cases
            && frozen.parent == diagnostic.parent == source.hash
            && (Trim(source.body.note) && Trim(note) && source.body.note != "" && note != "" ==>
                  diagnostic.note == source.body.note + " | " + note)
  {
    if Trim(source.body.note) && Trim(note) {
      NotesJoined(source.body.note, note);
    }
  }

  predicate Among(cases: seq<Case>, all: seq<Case>) {
    forall i | 0 <= i < |cases| :: cases[i] in all
  }

  /** From a frozen challenge a diagnostic can be built for any selection of its own cases. */
  lemma {:induction false} FrozenThenBuilt(c: Challenge, cases: seq<Case>, note: string, digest: Digest)
    requires Valid(Frozen(c, digest), digest) && Among(cases, c.body.cases)
    ensures Valid(Diagnostic(Frozen(c, digest), cases, note, map[], digest), digest)
  {
    var facts := Frozen(c, digest).body.facts;
    PatchKeeps(facts, map[]);
    forall i | 0 <= i < |cases|
      ensures CaseKnown(cases[i], IdsOf(facts))
    {
      var j :| 0 <= j < |c.body.cases| && c.body.cases[j] == cases[i];
    }
  }

  // Mapping to published revisions

  datatype Revision = Revision(id: nat, subject: string, attribute: string, assertion: string)

  datatype Block = Block(id: string, revisions: set<nat>)

  datatype Card = Card(id: nat, version: nat, blocks: seq<Block>)

  datatype Snapshot = Snapshot(rawSpans: nat, revisions: seq<Revision>, cards: seq<Card>)

  datatype Place = Place(card: nat, version: nat, block: string)

  datatype Mapped = Mapped(factId: string, revision: nat, places: set<Place>)

  predicate Matches(f: Fact, v: Revision) {
    f.authored.Some? && v.subject == f.authored.value.subject && v.attribute == f.authored.value.attribute
    && v.assertion == f.assertion
  }

  /** The only revision of the snapshot that the fact matches. */
  predicate MatchesOnly(f: Fact, revisions: seq<Revision>, i: nat) {
    i < |revisions| && Matches(f, revisions[i]) && forall j | 0 <= j < |revisions| && j != i :: !Matches(f, revisions[j])
  }

  function PlacesOf(s: Snapshot, revision: nat): set<Place> {
    set i, j | 0 <= i < |s.cards| && 0 <= j < |s.cards[i].blocks| && revision in s.cards[i].blocks[j].revisions ::
      Place(s.cards[i].id, s.cards[i].version, s.cards[i].blocks[j].id)
  }

  /** A block of some card of the snapshot, at this place, states the revision. */
  ghost predicate StatedAt(s: Snapshot, revision: nat, p: Place) {
    exists card, block ::
      card in s.cards && block in card.blocks && revision in block.revisions && p == Place(card.id, card.version, block.id)
  }

  lemma {:induction false} PlacesExactly(s: Snapshot, revision: nat)
    ensures forall p :: p in PlacesOf(s, revision) <==> StatedAt(s, revision, p)
  {
    forall p
      ensures p in PlacesOf(s, revision) <==> StatedAt(s, revision, p)
    {
      if StatedAt(s, revision, p) {
        var card, block :|
          card in s.cards && block in card.blocks && revision in block.revisions && p == Place(card.id, card.version, block.id);
        var i :| 0 <= i < |s.cards| && s.cards[i] == card;
        var j :| 0 <= j < |s.cards[i].blocks| && s.cards[i].blocks[j] == block;
      }
    }
  }

  predicate DistinctRevisions(revisions: seq<Revision>) {
    forall i, j | 0 <= i < j < |revisions| :: revisions[i].id != revisions[j].id
  }

  /** The fact is mapped to the one revision it matches, which is published somewhere. */
  predicate MapsFact(f: Fact, s: Snapshot, m: Mapped) {
    && m.factId == f.id && m.places == PlacesOf(s, m.revision) && m.places != {}
    && exists i | 0 <= i < |s.revisions| :: s.revisions[i].id == m.revision && MatchesOnly(f, s.revisions, i)
  }

  /** The revision has the subject and attribute of the fixture and the assertion of the fact. */
  predicate Fits(f: Fact, v: Revision) {
    match f.authored
    case None => false
    case Some(Authored(_, subject, attribute, _, _, _, _)) =>
      v.subject == subject && v.attribute == attribute && v.assertion == f.assertion
  }

  /** A fact is mapped to a revision if and only if that revision, and no other, fits it, and is published, and the places
      are all those where it is. */
  lemma {:induction false} MapsExactly(f: Fact, s: Snapshot, m: Mapped)
    requires DistinctRevisions(s.revisions)
    ensures MapsFact(f, s, m) <==>
            && m.factId == f.id
            && (forall p :: p in m.places <==> StatedAt(s, m.revision, p)) && (exists p :: StatedAt(s, m.revision, p))
            && (exists v :: v in s.revisions && v.id == m.revision && Fits(f, v))
            && (forall v | v in s.revisions && Fits(f, v) :: v.id == m.revision)
  {
    PlacesExactly(s, m.revision);
    assert m.places == PlacesOf(s, m.revision) <==> forall p :: p in m.places <==> p in PlacesOf(s, m.revision);
    FitsExactly(f, s.revisions, m.revision);
    if m.places == PlacesOf(s, m.revision) {
      assert m.places != {} <==> exists p :: p in m.places;
    }
  }

  lemma {:induction false} FitsExactly(f: Fact, revisions: seq<Revision>, id: nat)
    requires DistinctRevisions(revisions)
    ensures (exists i | 0 <= i < |revisions| :: revisions[i].id == id && MatchesOnly(f, revisions, i)) <==>
            (exists v :: v in revisions && v.id == id && Fits(f, v)) && forall v | v in revisions && Fits(f, v) :: v.id == id
  {
    forall v: Revision
      ensures Matches(f, v) <==> Fits(f, v)
    {
    }
    if i :| 0 <= i < |revisions| && revisions[i].id == id && MatchesOnly(f, revisions, i) {
      assert revisions[i] in revisions;
    }
    if (exists v :: v in revisions && v.id == id && Fits(f, v)) && forall v | v in revisions && Fits(f, v) :: v.id == id {
      var v :| v in revisions && v.id == id && Fits(f, v);
      var i: nat :| i < |revisions| && revisions[i] == v;
      forall j | 0 <= j < |revisions| && j != i
        ensures !Matches(f, revisions[j])
      {
        assert revisions[j] in revisions;
      }
      assert MatchesOnly(f, revisions, i);
    }
  }

  function Targets(mapping: seq<Mapped>): set<nat> {
    set i | 0 <= i < |mapping| :: mapping[i].revision
  }

  function RevisionIds(revisions: seq<Revision>): set<nat> {
    set i | 0 <= i < |revisions| :: revisions[i].id
  }

  method FindMatches(f: Fact, revisions: seq<Revision>) returns (matches: seq<nat>)
    ensures forall i :: i in matches <==> 0 <= i < |revisions| && Matches(f, revisions[i])
    ensures forall a, b | 0 <= a < b < |matches| :: matches[a] != matches[b]
  {
    matches := [];
    for i := 0 to |revisions|
      invariant forall j :: j in matches <==> 0 <= j < i && Matches(f, revisions[j])
      invariant forall a, b | 0 <= a < b < |matches| :: matches[a] != matches[b]
    {
      if Matches(f, revisions[i]) {
        assert i !in matches;
        matches := matches + [i];
      }
    }
  }

  /** Whether the fact can be mapped, and how. */
  method MapFact(f: Fact, s: Snapshot) returns (r: Result<Mapped>)
    requires DistinctRevisions(s.revisions)
    ensures r.Ok? ==> MapsFact(f, s, r.value)
    ensures r.Err? ==> forall m :: !MapsFact(f, s, m)
  {
    var matches := FindMatches(f, s.revisions);
    if |matches| != 1 {
      forall m
        ensures !MapsFact(f, s, m)
      {
        if MapsFact(f, s, m) {
          var i :| 0 <= i < |s.revisions| && s.revisions[i].id == m.revision && MatchesOnly(f, s.revisions, i);
          OnlyOne(f, s.revisions, matches, i);
        }
      }
      return Err(NotOneRevision(f.id));
    }
    var i := matches[0];
    assert MatchesOnly(f, s.revisions, i) by {
      forall j | 0 <= j < |s.revisions| && j != i
        ensures !Matches(f, s.revisions[j])
      {
        assert j !in matches;
      }
    }
    var id := s.revisions[i].id;
    var places := PlacesOf(s, id);
    if places == {} {
      return Err(Unpublished(f.id));
    }
    r := Ok(Mapped(f.id, id, places));
  }

  lemma {:induction false} OnlyOne(f: Fact, revisions: seq<Revision>, matches: seq<nat>, i: nat)
    requires forall j :: j in matches <==> 0 <= j < |revisions| && Matches(f, revisions[j])
    requires MatchesOnly(f, revisions, i) && forall a, b | 0 <= a < b < |matches| :: matches[a] != matches[b]
    ensures |matches| == 1
  {
    assert i in matches;
    forall a | 0 <= a < |matches|
      ensures matches[a] == i
    {
      assert matches[a] in matches;
    }
    assert forall a {:trigger matches[a]} | 0 <= a < |matches| - 1 :: matches[a] != matches[a + 1];
    assert matches[0] == i;
  }

  /** Maps every fact of a validated challenge, if each matches exactly one published revision and no revision is left. */
  method MapFacts(facts: seq<Fact>, s: Snapshot) returns (r: Result<seq<Mapped>>)
    requires DistinctRevisions(s.revisions)
    ensures r.Ok? ==> |r.value| == |facts| && (forall i | 0 <= i < |facts| :: MapsFact(facts[i], s, r.value[i]))
                      && Targets(r.value) == RevisionIds(s.revisions) && s.rawSpans == 0
    ensures r.Err? ==> s.rawSpans != 0 || s.revisions == []
                       || forall mapping: seq<Mapped> | |mapping| == |facts| && Targets(mapping) == RevisionIds(s.revisions) ::
                            exists i :: 0 <= i < |facts| && !MapsFact(facts[i], s, mapping[i])
  {
    if s.rawSpans != 0 || s.revisions == [] {
      return Err(NotFactOnly);
    }
    var mapping: seq<Mapped> := [];
    for i := 0 to |facts|
      invariant |mapping| == i && forall j | 0 <= j < i :: MapsFact(facts[j], s, mapping[j])
    {
      var mapped := MapFact(facts[i], s);
      if mapped.Err? {
        return Err(mapped.error);
      }
      mapping := mapping + [mapped.value];
    }
    if Targets(mapping) != RevisionIds(s.revisions) {
      MappingUnique(facts, s, mapping);
      return Err(UnmappedRevision);
    }
    r := Ok(mapping);
  }

  lemma {:induction false} MappingUnique(facts: seq<Fact>, s: Snapshot, mapping: seq<Mapped>)
    requires |mapping| == |facts| && forall i | 0 <= i < |facts| :: MapsFact(facts[i], s, mapping[i])
    requires Targets(mapping) != RevisionIds(s.revisions)
    ensures forall other: seq<Mapped> | |other| == |facts| && Targets(other) == RevisionIds(s.revisions) ::
              exists i :: 0 <= i < |facts| && !MapsFact(facts[i], s, other[i])
  {
  }

  // One revision for each fact, and one fact for each revision

  predicate SameContent(f: Fact, g: Fact) {
    f.authored.Some? && g.authored.Some? && f.authored.value.subject == g.authored.value.subject
    && f.authored.value.attribute == g.authored.value.attribute && f.assertion == g.assertion
  }

  /** Two facts share their revision exactly when they have the same subject, attribute and assertion. */
  lemma {:induction false} SharedExactly(f: Fact, g: Fact, s: Snapshot, m: Mapped, n: Mapped)
    requires DistinctRevisions(s.revisions) && MapsFact(f, s, m) && MapsFact(g, s, n)
    ensures m.revision == n.revision <==> SameContent(f, g)
  {
  }

  /** A mapped frozen challenge has one revision for each fact and one fact for each revision. */
  lemma {:induction false} FrozenOneToOne(facts: seq<Fact>, s: Snapshot, mapping: seq<Mapped>)
    requires DistinctIds(facts) && DistinctRevisions(s.revisions) && |mapping| == |facts| && Targets(mapping) == RevisionIds(s.revisions)
    requires forall i | 0 <= i < |facts| :: MapsFact(Fixtures(facts)[i], s, mapping[i])
    ensures forall i, j | 0 <= i < j < |mapping| :: mapping[i].factId != mapping[j].factId && mapping[i].revision != mapping[j].revision
    ensures forall k | 0 <= k < |s.revisions| :: exists i :: 0 <= i < |mapping| && mapping[i].revision == s.revisions[k].id
    ensures |facts| == |s.revisions|
  {
    forall i, j | 0 <= i < j < |mapping|
      ensures mapping[i].factId != mapping[j].factId && mapping[i].revision != mapping[j].revision
    {
      var f, g := Fixtures(facts)[i], Fixtures(facts)[j];
      SharedExactly(f, g, s, mapping[i], mapping[j]);
      assert ("rule_" + f.id)[5..] == f.id && ("rule_" + g.id)[5..] == g.id;
    }
    forall k | 0 <= k < |s.revisions|
      ensures exists i :: 0 <= i < |mapping| && mapping[i].revision == s.revisions[k].id
    {
      assert s.revisions[k].id in Targets(mapping);
    }
    TargetCount(mapping);
    RevisionCount(s.revisions);
  }

  function Members(xs: seq<nat>): set<nat> {
    set i | 0 <= i < |xs| :: xs[i]
  }

  lemma {:induction false} MembersSnoc(xs: seq<nat>, x: nat)
    ensures Members(xs + [x]) == Members(xs) + {x}
  {
    var all := xs + [x];
    assert all[|xs|] == x;
    assert forall i | 0 <= i < |xs| :: all[i] == xs[i];
  }

  lemma {:induction false} DistinctCount(xs: seq<nat>)
    requires forall i, j | 0 <= i < j < |xs| :: xs[i] != xs[j]
    ensures |Members(xs)| == |xs|
  {
    if xs != [] {
      var front, last := xs[..|xs| - 1], xs[|xs| - 1];
      DistinctCount(front);
      MembersSnoc(front, last);
      assert front + [last] == xs;
    }
  }

  lemma {:induction false} TargetCount(mapping: seq<Mapped>)
    requires forall i, j | 0 <= i < j < |mapping| :: mapping[i].revision != mapping[j].revision
    ensures |Targets(mapping)| == |mapping|
  {
    var xs := seq(|mapping|, i requires 0 <= i < |mapping| => mapping[i].revision);
    assert forall i | 0 <= i < |mapping| :: xs[i] == mapping[i].revision;
    assert Targets(mapping) == Members(xs);
    DistinctCount(xs);
  }

  lemma {:induction false} RevisionCount(revisions: seq<Revision>)
    requires DistinctRevisions(revisions)
    ensures |RevisionIds(revisions)| == |revisions|
  {
    var xs := seq(|revisions|, i requires 0 <= i < |revisions| => revisions[i].id);
    assert forall i | 0 <= i < |revisions| :: xs[i] == revisions[i].id;
    assert RevisionIds(revisions) == Members(xs);
    DistinctCount(xs);
  }

  // Candidates and citations

  datatype Citation = Citation(place: Place, revision: nat)

  function CandidateFacts(mapping: seq<Mapped>, candidates: set<Place>): set<string> {
    set i | 0 <= i < |mapping| && mapping[i].places * candidates != {} :: mapping[i].factId
  }

  function CitedFacts(mapping: seq<Mapped>, citations: set<Citation>): set<string> {
    set i, p | 0 <= i < |mapping| && p in mapping[i].places && Citation(p, mapping[i].revision) in citations :: mapping[i].factId
  }

  /** A fact is cited exactly where a citation names its revision at one of its places, and is a candidate exactly where a
      candidate block is one of its places. */
  lemma {:induction false} CitedExactly(mapping: seq<Mapped>, candidates: set<Place>, citations: set<Citation>, id: string)
    ensures id in CitedFacts(mapping, citations) <==>
            exists m, c :: m in mapping && c in citations && c.place in m.places && c.revision == m.revision && m.factId == id
    ensures id in CandidateFacts(mapping, candidates) <==>
            exists m, p :: m in mapping && p in m.places && p in candidates && m.factId == id
  {
    if m, c :| m in mapping && c in citations && c.place in m.places && c.revision == m.revision && m.factId == id {
      var i :| 0 <= i < |mapping| && mapping[i] == m;
      assert Citation(c.place, m.revision) == c;
    }
    if m, p :| m in mapping && p in m.places && p in candidates && m.factId == id {
      var i :| 0 <= i < |mapping| && mapping[i] == m;
      assert p in m.places * candidates;
    }
    if id in CandidateFacts(mapping, candidates) {
      var i :| 0 <= i < |mapping| && mapping[i].places * candidates != {} && mapping[i].factId == id;
      var p :| p in mapping[i].places * candidates;
      assert mapping[i] in mapping && p in candidates;
    }
  }

  /** Citations of candidate blocks cite candidate facts only. */
  lemma {:induction false} CitedAmongCandidates(mapping: seq<Mapped>, candidates: set<Place>, citations: set<Citation>)
    requires forall c | c in citations :: c.place in candidates
    ensures CitedFacts(mapping, citations) <= CandidateFacts(mapping, candidates)
  {
    forall id | id in CitedFacts(mapping, citations)
      ensures id in CandidateFacts(mapping, candidates)
    {
      var i, p :| 0 <= i < |mapping| && p in mapping[i].places && Citation(p, mapping[i].revision) in citations
                  && mapping[i].factId == id;
      assert p in mapping[i].places * candidates;
    }
  }
}
