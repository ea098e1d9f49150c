/** A session over a connection pool that pins one connection for the length of its outermost transaction. */
module PinnedSession {
  import opened Strings

  /** Where opening or closing a transaction goes wrong. */
  datatype Fault = NoFault | AtAcquire | AtBegin | AtEnd

  /** What a caller does with a session; an attempt swallows whatever its body raises. */
  datatype Program =
    | Statement(fails: bool)
    | Raise
    | Then(first: Program, second: Program)
    | Attempt(body: Program)
    | Transaction(body: Program, fault: Fault)

  datatype Event =
    | Acquired(c: nat)
    | PinSet(c: nat)
    | Began(c: nat)
    | Executed(c: nat)
    | Finished(c: nat)
    | PinCleared
    | Released(c: nat)

  datatype Kind = ACQUIRE | PIN | BEGIN | STATEMENT | FINISH | UNPIN | RELEASE

  function KindOf(e: Event): Kind {
    match e
    case Acquired(_) => ACQUIRE
    case PinSet(_) => PIN
    case Began(_) => BEGIN
    case Executed(_) => STATEMENT
    case Finished(_) => FINISH
    case PinCleared => UNPIN
    case Released(_) => RELEASE
  }

  function Kinds(log: seq<Event>): seq<Kind> {
    if log == [] then [] else Kinds(log[..|log| - 1]) + [KindOf(log[|log| - 1])]
  }

  /** The connection checked out of the pool, the pinned one, and the depth of open transactions. */
  datatype Hold = Hold(out: Option<nat>, pinned: Option<nat>, depth: nat)

  const IDLE := Hold(None, None, 0)

  /** The discipline: one connection at a time; pinned before a transaction begins on it and until the last has ended;
      statements and transactions on the connection that is out, and within transactions the pinned one;
      released only with the pin cleared. */
  function Step(h: Hold, e: Event): Option<Hold> {
    match e
    case Acquired(c) => if h == IDLE then Some(h.(out := Some(c))) else None
    case PinSet(c) => if h == Hold(Some(c), None, 0) then Some(h.(pinned := Some(c))) else None
    case Began(c) => if h.out == h.pinned == Some(c) then Some(h.(depth := h.depth + 1)) else None
    case Executed(c) => if h.out == Some(c) && (h.pinned == Some(c) <==> h.depth > 0) then Some(h) else None
    case Finished(c) => if h.pinned == Some(c) && h.depth > 0 then Some(h.(depth := h.depth - 1)) else None
    case PinCleared => if h.pinned.Some? && h.depth == 0 then Some(h.(pinned := None)) else None
    case Released(c) => if h == Hold(Some(c), None, 0) then Some(IDLE) else None
  }

  /** Where a log that keeps the discipline leads. */
  function Follow(h: Hold, log: seq<Event>): Option<Hold> {
    if log == [] then Some(h) else
      var before := Follow(h, log[..|log| - 1]);
      if before.None? then None else Step(before.value, log[|log| - 1])
  }

  /** Does the program end without an exception? A nested transaction acquires nothing. */
  predicate Completes(p: Program, pinned: bool) {
    match p
    case Statement(fails) => !fails
    case Raise => false
    case Then(first, second) => Completes(first, pinned) && Completes(second, pinned)
    case Attempt(_) => true
    case Transaction(body, fault) =>
      Completes(body, true) && (fault == NoFault || (fault == AtAcquire && pinned))
  }

  /** What happens in a transaction on a pinned connection. */
  function Inside(body: Program, fault: Fault): seq<Kind>
    decreases body, 1
  {
    if fault == AtBegin then [] else [BEGIN] + Happens(body, true) + [FINISH]
  }

  /** What happens when the program runs, up to where it raises. */
  function Happens(p: Program, pinned: bool): seq<Kind>
    decreases p, 0
  {
    match p
    case Statement(_) => if pinned then [STATEMENT] else [ACQUIRE, STATEMENT, RELEASE]
    case Raise => []
    case Then(first, second) =>
      if Completes(first, pinned) then Happens(first, pinned) + Happens(second, pinned) else Happens(first, pinned)
    case Attempt(body) => Happens(body, pinned)
    case Transaction(body, fault) =>
      if pinned then Inside(body, fault)
      else if fault == AtAcquire then []
      else [ACQUIRE, PIN] + Inside(body, fault) + [UNPIN, RELEASE]
  }

  lemma {:induction false} FollowOne(h: Hold, log: seq<Event>, e: Event)
    ensures Follow(h, log + [e]) == if Follow(h, log).None? then None else Step(Follow(h, log).value, e)
    ensures Kinds(log + [e]) == Kinds(log) + [KindOf(e)]
  {
  }

  lemma {:induction false} Joined(a: seq<Kind>, b: seq<Kind>, c: seq<Kind>, d: seq<Kind>)
    ensures a + b + c + d == a + (b + c + d)
  {
  }

  /** A log that keeps the discipline keeps it all along. */
  lemma {:induction false} FollowPrefix(h: Hold, log: seq<Event>, k: nat)
    requires Follow(h, log).Some? && k <= |log|
    ensures Follow(h, log[..k]).Some?
    ensures k < |log| ==> Step(Follow(h, log[..k]).value, log[k]) == Follow(h, log[..k + 1])
  {
    if k < |log| {
      FollowPrefix(h, log[..|log| - 1], k);
      assert log[..|log| - 1][..k] == log[..k];
      if k + 1 < |log| {
        assert log[..|log| - 1][..k + 1] == log[..k + 1];
      } else {
        assert log[..k + 1] == log && log[..k] == log[..|log| - 1];
      }
    } else {
      assert log[..k] == log;
    }
  }

  lemma {:induction false} PinnedUntilCleared(log: seq<Event>, i: nat, k: nat, c: nat)
    requires Follow(IDLE, log).Some? && i < k <= |log| && log[i] == PinSet(c)
    requires forall j | i < j < k :: log[j] != PinCleared
    ensures Follow(IDLE, log[..k]).Some? && Follow(IDLE, log[..k]).value.pinned == Follow(IDLE, log[..k]).value.out == Some(c)
    decreases k
  {
    FollowPrefix(IDLE, log, k - 1);
    FollowPrefix(IDLE, log, k);
    if i < k - 1 {
      PinnedUntilCleared(log, i, k - 1, c);
    }
  }

  /** From pinning a connection to clearing the pin nothing is acquired or released, and everything runs on it. */
  lemma {:induction false} OneConnectionThroughout(log: seq<Event>, i: nat, j: nat, c: nat)
    requires Follow(IDLE, log).Some? && i < j < |log| && log[i] == PinSet(c)
    requires forall k | i < k <= j :: log[k] != PinCleared
    ensures log[j] in {Began(c), Executed(c), Finished(c)}
  {
    PinnedUntilCleared(log, i, j, c);
    FollowPrefix(IDLE, log, j);
    FollowPrefix(IDLE, log, j + 1);
  }

  /** A released connection is never the pinned one, and is returned only when no transaction is open on it. */
  lemma {:induction false} ReleasedUnpinned(log: seq<Event>, j: nat)
    requires Follow(IDLE, log).Some? && j < |log| && log[j].Released?
    ensures Follow(IDLE, log[..j]) == Some(Hold(Some(log[j].c), None, 0))
  {
    FollowPrefix(IDLE, log, j);
    FollowPrefix(IDLE, log, j + 1);
  }

  /** The session and its pool, of which `out` are the connections now checked out. */
  class Session {
    var connection: Option<nat>
    var out: set<nat>
    var issued: nat
    ghost var depth: nat
    ghost var log: seq<Event>

    constructor ()
      ensures Valid() && connection == None && log == []
    {
      connection, out, issued, depth, log := None, {}, 0, 0, [];
    }

    ghost function Now(): Hold
      reads this
    {
      Hold(connection, connection, depth)
    }

    /** The log leads to the present, and exactly the pinned connection is out. */
    ghost predicate Consistent()
      reads this
    {
      Follow(IDLE, log) == Some(Now()) && out == if connection.Some? then {connection.value} else {}
    }

    /** Between statements a connection is pinned exactly inside a transaction. */
    ghost predicate Valid()
      reads this
    {
      Consistent() && (connection.Some? <==> depth > 0)
    }

    ghost method Note(e: Event)
      requires Follow(IDLE, log).Some? && Step(Follow(IDLE, log).value, e).Some?
      modifies this`log
      ensures log == old(log) + [e] && Kinds(log) == Kinds(old(log)) + [KindOf(e)]
      ensures Follow(IDLE, log) == Step(Follow(IDLE, old(log)).value, e)
    {
      FollowOne(IDLE, log, e);
      log := log + [e];
    }

    method Acquire() returns (c: nat)
      requires Valid() && connection == None
      modifies this`out, this`issued, this`log
      ensures out == {c} && Follow(IDLE, log) == Some(Hold(Some(c), None, 0))
      ensures old(log) <= log && Kinds(log) == Kinds(old(log)) + [ACQUIRE]
    {
      c := issued;
      issued := issued + 1;
      out := {c};
      Note(Acquired(c));
    }

    method Release(c: nat)
      requires out == {c} && connection == None && depth == 0 && Follow(IDLE, log) == Some(Hold(Some(c), None, 0))
      modifies this`out, this`log
      ensures Valid() && old(log) <= log && Kinds(log) == Kinds(old(log)) + [RELEASE]
    {
      out := {};
      Note(Released(c));
    }

    /** A statement runs on the pinned connection, or on one borrowed for itself. */
    method Execute(fails: bool) returns (ok: bool)
      requires Valid()
      modifies this
      ensures Valid() && Now() == old(Now()) && ok == !fails
      ensures old(log) <= log && Kinds(log) == Kinds(old(log)) + Happens(Statement(fails), old(connection).Some?)
    {
      if connection.Some? {
        Note(Executed(connection.value));
      } else {
        var c := Acquire();
        Note(Executed(c));
        Release(c);
      }
      ok := !fails;
    }

    method Pin()
      requires Valid() && connection == None
      modifies this
      ensures Consistent() && connection.Some? && depth == 0
      ensures old(log) <= log && Kinds(log) == Kinds(old(log)) + [ACQUIRE, PIN]
    {
      var c := Acquire();
      Note(PinSet(c));
      connection := Some(c);
    }

    /** The pin is cleared before the connection goes back to the pool. */
    method Unpin()
      requires Consistent() && connection.Some? && depth == 0
      modifies this
      ensures Valid() && connection == None && depth == 0
      ensures old(log) <= log && Kinds(log) == Kinds(old(log)) + [UNPIN, RELEASE]
    {
      var c := connection.value;
      Note(PinCleared);
      connection := None;
      Release(c);
    }

    /** A transaction on the pinned connection; the end is reached however the body ends. */
    method Within(body: Program, fault: Fault) returns (ok: bool)
      requires Consistent() && connection.Some?
      modifies this
      ensures Consistent() && Now() == old(Now())
      ensures old(log) <= log && Kinds(log) == Kinds(old(log)) + Inside(body, fault)
      ensures ok <==> Completes(body, true) && fault in {NoFault, AtAcquire}
      decreases body, 1
    {
      if fault == AtBegin {
        return false;
      }
      ghost var before := Kinds(log);
      Note(Began(connection.value));
      depth := depth + 1;
      ok := Run(body);
      Note(Finished(connection.value));
      depth := depth - 1;
      ok := ok && fault != AtEnd;
      Joined(before, [BEGIN], Happens(body, true), [FINISH]);
    }

    /** The outermost transaction: its connection is pinned before it begins, and unpinned before it is released. */
    method Outermost(body: Program, fault: Fault) returns (ok: bool)
      requires Valid() && connection == None && fault != AtAcquire
      modifies this
      ensures Valid() && Now() == old(Now())
      ensures old(log) <= log && Kinds(log) == Kinds(old(log)) + Happens(Transaction(body, fault), false)
      ensures ok <==> Completes(body, true) && fault == NoFault
      decreases body, 2
    {
      ghost var before := Kinds(log);
      Pin();
      ok := Within(body, fault);
      Unpin();
      Joined(before, [ACQUIRE, PIN], Inside(body, fault), [UNPIN, RELEASE]);
    }

    /** Whatever the program, and wherever it raises, the session ends as it began, and its log keeps the discipline. */
    method Run(p: Program) returns (ok: bool)
      requires Valid()
      modifies this
      ensures Valid() && Now() == old(Now())
      ensures old(log) <= log && Kinds(log) == Kinds(old(log)) + Happens(p, old(connection).Some?)
      ensures ok <==> Completes(p, old(connection).Some?)
      decreases p, 0
    {
      match p
      case Statement(fails) => ok := Execute(fails);
      case Raise => ok := false;
      case Then(first, second) =>
        ok := Run(first);
        if ok {
          ok := Run(second);
        }
      case Attempt(body) =>
        ok := Run(body);
        ok := true;
      case Transaction(body, fault) =>
        if connection.Some? {
          ok := Within(body, fault);
        } else if fault == AtAcquire {
          ok := false;
        } else {
          ok := Outermost(body, fault);
        }
    }
  }
}
