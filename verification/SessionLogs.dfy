/** The discipline of the session, read off its log; and what programs do, whatever their shape. */
module SessionLogs {
  import opened Strings
  import opened PinnedSession

  // The log

  /** The connection was acquired and has not been released since. */
  ghost predicate OutSince(log: seq<Event>, c: nat) {
    exists i :: 0 <= i < |log| && log[i] == Acquired(c) && forall j | i < j < |log| :: !log[j].Released?
  }

  /** The connection was pinned and the pin has not been cleared since. */
  ghost predicate PinnedSince(log: seq<Event>, c: nat) {
    exists i :: 0 <= i < |log| && log[i] == PinSet(c) && forall j | i < j < |log| :: log[j] != PinCleared
  }

  /** The transactions begun, less those finished. */
  function Open(log: seq<Event>): int {
    if log == [] then 0 else
      var last := log[|log| - 1];
      Open(log[..|log| - 1]) + if last.Began? then 1 else if last.Finished? then -1 else 0
  }

  lemma {:induction false} OutNext(log: seq<Event>, e: Event, c: nat)
    ensures OutSince(log + [e], c) <==> e == Acquired(c) || (OutSince(log, c) && !e.Released?)
  {
    var all := log + [e];
    assert all[|log|] == e && forall j | 0 <= j < |log| :: all[j] == log[j];
    if i :| 0 <= i < |log| && log[i] == Acquired(c) && forall j | i < j < |log| :: !log[j].Released? {
      assert all[i] == Acquired(c);
    }
  }

  lemma {:induction false} PinnedNext(log: seq<Event>, e: Event, c: nat)
    ensures PinnedSince(log + [e], c) <==> e == PinSet(c) || (PinnedSince(log, c) && e != PinCleared)
  {
    var all := log + [e];
    assert all[|log|] == e && forall j | 0 <= j < |log| :: all[j] == log[j];
    if i :| 0 <= i < |log| && log[i] == PinSet(c) && forall j | i < j < |log| :: log[j] != PinCleared {
      assert all[i] == PinSet(c);
    }
  }

  /** The connection that is out, in terms of the log. */
  ghost predicate OutIs(log: seq<Event>, out: Option<nat>) {
    forall c: nat :: out == Some(c) <==> OutSince(log, c)
  }

  ghost predicate PinIs(log: seq<Event>, pinned: Option<nat>) {
    forall c: nat :: pinned == Some(c) <==> PinnedSince(log, c)
  }

  /** A pinned connection is out, and transactions are open on pinned connections only. */
  predicate Ordered(h: Hold) {
    (h.pinned.Some? ==> h.out == h.pinned) && (h.depth > 0 ==> h.pinned.Some?)
  }

  /** A log that keeps the discipline leads to the connection it acquired last and not released, the one it pinned last
      and not cleared, and the transactions it left open. */
  lemma {:induction false} LeadsExactly(log: seq<Event>) returns (h: Hold)
    requires Follow(IDLE, log).Some?
    ensures Follow(IDLE, log) == Some(h) && OutIs(log, h.out) && PinIs(log, h.pinned) && h.depth == Open(log) && Ordered(h)
  {
    if log == [] {
      h := IDLE;
    } else {
      var front, e := log[..|log| - 1], log[|log| - 1];
      assert front + [e] == log;
      var before := LeadsExactly(front);
      h := Step(before, e).value;
      StepOut(front, before, e, h);
      StepPin(front, before, e, h);
    }
  }

  lemma {:induction false} StepOut(front: seq<Event>, before: Hold, e: Event, h: Hold)
    requires OutIs(front, before.out) && Step(before, e) == Some(h)
    ensures OutIs(front + [e], h.out)
  {
    forall c: nat
      ensures h.out == Some(c) <==> OutSince(front + [e], c)
    {
      OutNext(front, e, c);
    }
  }

  lemma {:induction false} StepPin(front: seq<Event>, before: Hold, e: Event, h: Hold)
    requires PinIs(front, before.pinned) && Step(before, e) == Some(h)
    ensures PinIs(front + [e], h.pinned)
  {
    forall c: nat
      ensures h.pinned == Some(c) <==> PinnedSince(front + [e], c)
    {
      PinnedNext(front, e, c);
    }
  }

  ghost predicate NoneOut(log: seq<Event>) {
    forall c :: !OutSince(log, c)
  }

  ghost predicate NonePinned(log: seq<Event>) {
    forall c :: !PinnedSince(log, c)
  }

  /** What may happen next: a connection is acquired when none is out; it is pinned once, outside transactions; transactions
      begin and finish on the pinned connection; a statement runs on the connection that is out, pinned exactly inside
      a transaction; the pin is cleared with no transaction open, and the connection released without a pin. */
  ghost predicate MayFollow(log: seq<Event>, e: Event) {
    match e
    case Acquired(_) => NoneOut(log)
    case PinSet(c) => OutSince(log, c) && NonePinned(log)
    case Began(c) => PinnedSince(log, c)
    case Executed(c) => OutSince(log, c) && (PinnedSince(log, c) <==> Open(log) > 0)
    case Finished(c) => PinnedSince(log, c) && Open(log) > 0
    case PinCleared => !NonePinned(log) && Open(log) == 0
    case Released(c) => OutSince(log, c) && NonePinned(log)
  }

  /** The discipline, event by event: a log keeps it if and only if each event may follow those before it. */
  lemma {:induction false} DisciplineExactly(log: seq<Event>, e: Event)
    requires Follow(IDLE, log).Some?
    ensures Follow(IDLE, log + [e]).Some? <==> MayFollow(log, e)
  {
    FollowOne(IDLE, log, e);
    var h := LeadsExactly(log);
    assert NoneOut(log) <==> h.out == None by {
      if h.out.Some? {
        assert OutSince(log, h.out.value);
      }
    }
    assert NonePinned(log) <==> h.pinned == None by {
      if h.pinned.Some? {
        assert PinnedSince(log, h.pinned.value);
      }
    }
  }

  // Programs

  function Count(kinds: seq<Kind>, k: Kind): nat {
    if kinds == [] then 0 else Count(kinds[..|kinds| - 1], k) + if kinds[|kinds| - 1] == k then 1 else 0
  }

  lemma {:induction false} CountAppend(a: seq<Kind>, b: seq<Kind>)
    ensures forall k :: Count(a + b, k) == Count(a, k) + Count(b, k)
  {
    if b == [] {
      assert a + b == a;
    } else {
      assert (a + b)[..|a + b| - 1] == a + b[..|b| - 1];
      CountAppend(a, b[..|b| - 1]);
    }
  }

  lemma {:induction false} CountFew(a: Kind, b: Kind)
    ensures forall k :: Count([], k) == 0 && Count([a], k) == if a == k then 1 else 0
    ensures forall k :: Count([a, b], k) == (if a == k then 1 else 0) + if b == k then 1 else 0
  {
    assert [a][..0] == [] && [a, b][..1] == [a];
    forall k
      ensures Count([a, b], k) == (if a == k then 1 else 0) + if b == k then 1 else 0
    {
      assert Count([a, b][..1], k) == if a == k then 1 else 0;
    }
  }

  /** Every transaction begun is finished, every pin cleared, every connection released; and inside a transaction nothing
      is acquired, pinned, cleared or released. */
  ghost predicate Balanced(kinds: seq<Kind>, pinned: bool) {
    && Count(kinds, BEGIN) == Count(kinds, FINISH) && Count(kinds, PIN) == Count(kinds, UNPIN)
    && Count(kinds, ACQUIRE) == Count(kinds, RELEASE)
    && (pinned ==> Count(kinds, ACQUIRE) == Count(kinds, PIN) == 0)
  }

  lemma {:induction false} BalancedAppend(a: seq<Kind>, b: seq<Kind>, pinned: bool)
    requires Balanced(a, pinned) && Balanced(b, pinned)
    ensures Balanced(a + b, pinned)
  {
    CountAppend(a, b);
  }

  lemma {:induction false} CountWithin(open: seq<Kind>, body: seq<Kind>, close: seq<Kind>)
    ensures forall k :: Count(open + body + close, k) == Count(open, k) + Count(body, k) + Count(close, k)
  {
    CountAppend(open + body, close);
    CountAppend(open, body);
  }

  lemma {:induction false} InsideBalanced(body: Program, fault: Fault)
    requires Balanced(Happens(body, true), true)
    ensures Balanced(Inside(body, fault), true)
  {
    CountFew(BEGIN, FINISH);
    CountFew(FINISH, BEGIN);
    CountWithin([BEGIN], Happens(body, true), [FINISH]);
  }

  lemma {:induction false} StatementBalanced(pinned: bool)
    ensures Balanced(if pinned then [STATEMENT] else [ACQUIRE, STATEMENT, RELEASE], pinned)
  {
    CountFew(ACQUIRE, STATEMENT);
    CountFew(STATEMENT, RELEASE);
    CountFew(RELEASE, RELEASE);
    CountAppend([ACQUIRE, STATEMENT], [RELEASE]);
    assert [ACQUIRE, STATEMENT] + [RELEASE] == [ACQUIRE, STATEMENT, RELEASE];
  }

  lemma {:induction false} OutermostBalanced(inside: seq<Kind>)
    requires Balanced(inside, true)
    ensures Balanced([ACQUIRE, PIN] + inside + [UNPIN, RELEASE], false)
  {
    CountFew(ACQUIRE, PIN);
    CountFew(UNPIN, RELEASE);
    CountWithin([ACQUIRE, PIN], inside, [UNPIN, RELEASE]);
  }

  /** However a program ends, what it opened is closed again. */
  lemma {:induction false} EverythingFinished(p: Program, pinned: bool)
    ensures Balanced(Happens(p, pinned), pinned)
  {
    match p
    case Statement(_) =>
      StatementBalanced(pinned);
    case Raise =>
      CountFew(BEGIN, BEGIN);
    case Then(first, second) =>
      EverythingFinished(first, pinned);
      EverythingFinished(second, pinned);
      BalancedAppend(Happens(first, pinned), Happens(second, pinned), pinned);
    case Attempt(body) =>
      EverythingFinished(body, pinned);
    case Transaction(body, fault) =>
      EverythingFinished(body, true);
      InsideBalanced(body, fault);
      OutermostBalanced(Inside(body, fault));
      CountFew(BEGIN, BEGIN);
  }

  // How programs compose

  /** How a sequence is grouped does not matter. */
  lemma {:induction false} Grouping(p: Program, q: Program, r: Program, pinned: bool)
    ensures Happens(Then(Then(p, q), r), pinned) == Happens(Then(p, Then(q, r)), pinned)
    ensures Completes(Then(Then(p, q), r), pinned) <==> Completes(Then(p, Then(q, r)), pinned)
  {
    var (a, b, c) := (Happens(p, pinned), Happens(q, pinned), Happens(r, pinned));
    assert (a + b) + c == a + (b + c);
  }

  /** Nothing happens after a raise, and a raise that is swallowed leaves no trace. */
  lemma {:induction false} Raising(p: Program, pinned: bool)
    ensures Happens(Then(Raise, p), pinned) == [] && !Completes(Then(Raise, p), pinned)
    ensures Happens(Then(Attempt(Raise), p), pinned) == Happens(p, pinned)
    ensures Completes(Then(Attempt(Raise), p), pinned) <==> Completes(p, pinned)
  {
    assert Happens(Attempt(Raise), pinned) == [];
    assert [] + Happens(p, pinned) == Happens(p, pinned);
  }

  /** A statement uses the pinned connection, or borrows one; a transaction begins and finishes around its body, unless it
      cannot begin; the outermost one acquires and pins before, and clears and releases behind, unless it cannot acquire. */
  lemma {:induction false} HappensExactly(p: Program, fault: Fault, fails: bool)
    ensures Happens(Statement(fails), true) == [STATEMENT]
    ensures Happens(Statement(fails), false) == [ACQUIRE, STATEMENT, RELEASE]
    ensures var inside := if fault == AtBegin then [] else [BEGIN] + Happens(p, true) + [FINISH];
            && Happens(Transaction(p, fault), true) == inside
            && Happens(Transaction(p, fault), false) ==
               if fault == AtAcquire then [] else [ACQUIRE, PIN] + inside + [UNPIN, RELEASE]
  {
  }

  /** A transaction lets through what its body raises, and is kept from completing by a fault of its own, except that a
      nested one acquires nothing. */
  lemma {:induction false} CompletesExactly(p: Program, pinned: bool)
    ensures Completes(Transaction(p, NoFault), pinned) <==> Completes(p, true)
    ensures Completes(Transaction(p, AtAcquire), pinned) <==> pinned && Completes(p, true)
    ensures !Completes(Transaction(p, AtBegin), pinned) && !Completes(Transaction(p, AtEnd), pinned)
    ensures Completes(Attempt(p), pinned) && !Completes(Then(p, Raise), pinned)
  {
  }
}
