/** Tokens of an observed run, call by call, and what is left of them above a baseline per call. */
module TokenAccounting {
  import opened Strings

  /** The events that matter: a message with its usage (repeated with the same id while it streams), a completed turn,
      a completed tool action, anything else. */
  datatype Event =
    | Message(id: Option<string>, input: nat, output: nat)
    | Turn(input: nat, output: nat)
    | Action
    | Other

  datatype Call = Call(input: real, output: real)

  datatype Tool = Claude | Codex

  function Ids(events: seq<Event>): set<Option<string>> {
    set i | 0 <= i < |events| && events[i].Message? :: events[i].id
  }

  /** One call for each message id, with the usage first seen. */
  function MessageCalls(events: seq<Event>): seq<Call> {
    if events == [] then [] else
      var front, e := events[..|events| - 1], events[|events| - 1];
      var before := MessageCalls(front);
      if e.Message? && e.id !in Ids(front) then before + [Call(e.input as real, e.output as real)] else before
  }

  function TurnInput(events: seq<Event>): nat {
    if events == [] then 0 else
      var e := events[|events| - 1];
      TurnInput(events[..|events| - 1]) + if e.Turn? then e.input else 0
  }

  function TurnOutput(events: seq<Event>): nat {
    if events == [] then 0 else
      var e := events[|events| - 1];
      TurnOutput(events[..|events| - 1]) + if e.Turn? then e.output else 0
  }

  function Actions(events: seq<Event>): nat {
    if events == [] then 0 else Actions(events[..|events| - 1]) + if events[|events| - 1].Action? then 1 else 0
  }

  /** One call for each action and one for the answer, sharing the turn totals equally. */
  function SharedCalls(events: seq<Event>): seq<Call> {
    var n := Actions(events) + 1;
    var share := Call(TurnInput(events) as real / n as real, TurnOutput(events) as real / n as real);
    seq(n, _ => share)
  }

  function CallsOf(events: seq<Event>, tool: Tool): seq<Call> {
    if tool == Claude then MessageCalls(events) else SharedCalls(events)
  }

  function RawInput(calls: seq<Call>): real {
    if calls == [] then 0.0 else RawInput(calls[..|calls| - 1]) + calls[|calls| - 1].input
  }

  function RawOutput(calls: seq<Call>): real {
    if calls == [] then 0.0 else RawOutput(calls[..|calls| - 1]) + calls[|calls| - 1].output
  }

  function Above(x: real, base: real): real {
    if x - base > 0.0 then x - base else 0.0
  }

  /** The input above the baseline, call by call. */
  function PureInput(calls: seq<Call>, base: real): real {
    if calls == [] then 0.0 else PureInput(calls[..|calls| - 1], base) + Above(calls[|calls| - 1].input, base)
  }

  // The loops over the events

  method ListCalls(events: seq<Event>, tool: Tool) returns (calls: seq<Call>)
    ensures calls == CallsOf(events, tool)
  {
    if tool == Claude {
      var seen: set<Option<string>> := {};
      calls := [];
      for i := 0 to |events|
        invariant seen == Ids(events[..i]) && calls == MessageCalls(events[..i])
      {
        var e := events[i];
        assert events[..i + 1][..i] == events[..i];
        IdsNext(events[..i], e);
        assert events[..i] + [e] == events[..i + 1];
        if e.Message? && e.id !in seen {
          seen := seen + {e.id};
          calls := calls + [Call(e.input as real, e.output as real)];
        }
      }
      assert events[..|events|] == events;
    } else {
      var input: nat, output: nat, actions: nat := 0, 0, 0;
      for i := 0 to |events|
        invariant input == TurnInput(events[..i]) && output == TurnOutput(events[..i]) && actions == Actions(events[..i])
      {
        var e := events[i];
        assert events[..i + 1][..i] == events[..i];
        if e.Turn? {
          input, output := input + e.input, output + e.output;
        }
        if e.Action? {
          actions := actions + 1;
        }
      }
      assert events[..|events|] == events;
      var n := actions + 1;
      calls := seq(n, _ => Call(input as real / n as real, output as real / n as real));
    }
  }

  method Measure(events: seq<Event>, tool: Tool, base: real) returns (raw: real, pure: real)
    ensures var calls := CallsOf(events, tool); raw == RawInput(calls) && pure == PureInput(calls, base)
  {
    var calls := ListCalls(events, tool);
    raw, pure := 0.0, 0.0;
    for i := 0 to |calls|
      invariant raw == RawInput(calls[..i]) && pure == PureInput(calls[..i], base)
    {
      assert calls[..i + 1][..i] == calls[..i];
      raw, pure := raw + calls[i].input, pure + Above(calls[i].input, base);
    }
    assert calls[..|calls|] == calls;
  }

  lemma {:induction false} IdsNext(events: seq<Event>, e: Event)
    ensures Ids(events + [e]) == if e.Message? then Ids(events) + {e.id} else Ids(events)
  {
    var all := events + [e];
    assert all[|events|] == e;
    forall id
      ensures id in Ids(all) <==> id in Ids(events) || (e.Message? && id == e.id)
    {
      if i :| 0 <= i < |events| && events[i].Message? && events[i].id == id {
        assert all[i] == events[i];
      }
      if i :| 0 <= i < |all| && all[i].Message? && all[i].id == id {
        assert i < |events| ==> events[i] == all[i];
      }
    }
  }

  // Each message counts once

  /** There are exactly as many calls as message ids. */
  lemma {:induction false} OneCallPerId(events: seq<Event>)
    ensures |MessageCalls(events)| == |Ids(events)|
  {
    if events != [] {
      var front, e := events[..|events| - 1], events[|events| - 1];
      OneCallPerId(front);
      IdsNext(front, e);
      assert front + [e] == events;
    }
  }

  lemma {:induction false} MessageSnoc(events: seq<Event>, e: Event)
    ensures MessageCalls(events + [e]) ==
            if e.Message? && e.id !in Ids(events) then MessageCalls(events) + [Call(e.input as real, e.output as real)]
            else MessageCalls(events)
  {
  }

  /** A repetition of a message already seen, whatever usage it reports, changes nothing wherever it comes. */
  lemma {:induction false} RepetitionIgnored(a: seq<Event>, e: Event, b: seq<Event>)
    requires e.Message? && e.id in Ids(a)
    ensures MessageCalls(a + [e] + b) == MessageCalls(a + b) && Ids(a + [e] + b) == Ids(a + b)
  {
    if b == [] {
      assert a + [e] + b == a + [e] && a + b == a;
      MessageSnoc(a, e);
      IdsNext(a, e);
    } else {
      var front, last := b[..|b| - 1], b[|b| - 1];
      RepetitionIgnored(a, e, front);
      assert a + [e] + b == (a + [e] + front) + [last];
      assert a + b == (a + front) + [last];
      MessageSnoc(a + [e] + front, last);
      MessageSnoc(a + front, last);
      IdsNext(a + [e] + front, last);
      IdsNext(a + front, last);
    }
  }

  /** The first message of its id stands at `i`. */
  predicate FirstOfId(events: seq<Event>, i: int) {
    0 <= i < |events| && events[i].Message? && forall j | 0 <= j < i :: events[j].Message? ==> events[j].id != events[i].id
  }

  lemma {:induction false} FirstNext(events: seq<Event>, e: Event, i: int)
    ensures FirstOfId(events + [e], i) <==>
            FirstOfId(events, i) || (i == |events| && e.Message? && e.id !in Ids(events))
  {
    var all := events + [e];
    assert all[|events|] == e && forall j | 0 <= j < |events| :: all[j] == events[j];
  }

  predicate CallAt(events: seq<Event>, i: nat, c: Call) {
    i < |events| && events[i].Message? && c == Call(events[i].input as real, events[i].output as real)
  }

  /** The calls by message are, in the order of the events, the first messages of their ids, with the input and the output
      they report. */
  lemma {:induction false} MessagesExactly(events: seq<Event>) returns (at: seq<nat>, calls: seq<Call>)
    ensures calls == CallsOf(events, Claude) && |at| == |calls|
    ensures forall n | 0 <= n < |at| :: CallAt(events, at[n], calls[n])
    ensures forall m, n | 0 <= m < n < |at| :: at[m] < at[n]
    ensures forall i: nat :: i in at <==> FirstOfId(events, i)
  {
    at, calls := [], [];
    if events != [] {
      var front, e := events[..|events| - 1], events[|events| - 1];
      at, calls := MessagesExactly(front);
      assert front + [e] == events;
      forall i: nat
        ensures FirstOfId(events, i) <==> FirstOfId(front, i) || (i == |front| && e.Message? && e.id !in Ids(front))
      {
        FirstNext(front, e, i);
      }
      if e.Message? && e.id !in Ids(front) {
        at, calls := at + [|front|], calls + [Call(e.input as real, e.output as real)];
      }
    }
  }

  lemma {:induction false} TotalsAppend(a: seq<Event>, b: seq<Event>)
    ensures TurnInput(a + b) == TurnInput(a) + TurnInput(b)
    ensures TurnOutput(a + b) == TurnOutput(a) + TurnOutput(b)
    ensures Actions(a + b) == Actions(a) + Actions(b)
  {
    if b == [] {
      assert a + b == a;
    } else {
      assert (a + b)[..|a + b| - 1] == a + b[..|b| - 1];
      TotalsAppend(a, b[..|b| - 1]);
    }
  }

  lemma {:induction false} TotalsOfOne(e: Event)
    ensures TurnInput([]) == TurnOutput([]) == Actions([]) == 0
    ensures TurnInput([e]) == match e case Turn(input, _) => input case _ => 0
    ensures TurnOutput([e]) == match e case Turn(_, output) => output case _ => 0
    ensures Actions([e]) == match e case Action => 1 case _ => 0
  {
    assert [e][..0] == [];
  }

  /** Every completed turn adds its input and its output to the totals, every completed action one call, whatever stands
      around it, and nothing else adds anything. */
  lemma {:induction false} TotalsExactly(a: seq<Event>, e: Event, b: seq<Event>)
    ensures TurnInput(a + [e] + b) == TurnInput(a) + TurnInput(b) + match e case Turn(input, _) => input case _ => 0
    ensures TurnOutput(a + [e] + b) == TurnOutput(a) + TurnOutput(b) + match e case Turn(_, output) => output case _ => 0
    ensures Actions(a + [e] + b) == Actions(a) + Actions(b) + match e case Action => 1 case _ => 0
  {
    TotalsAppend(a + [e], b);
    TotalsAppend(a, [e]);
    TotalsOfOne(e);
  }

  // Equal shares lose nothing

  /** `x` taken `n` times. */
  function Repeated(n: nat, x: real): real {
    if n == 0 then 0.0 else Repeated(n - 1, x) + x
  }

  lemma {:induction false} RepeatedTimes(n: nat, x: real)
    ensures Repeated(n, x) == n as real * x
  {
    if n > 0 {
      RepeatedTimes(n - 1, x);
      assert (n - 1) as real == n as real - 1.0;
    }
  }

  lemma {:induction false} SumOfEqual(calls: seq<Call>, share: Call, base: real)
    requires forall i | 0 <= i < |calls| :: calls[i] == share
    ensures RawInput(calls) == Repeated(|calls|, share.input) && RawOutput(calls) == Repeated(|calls|, share.output)
    ensures PureInput(calls, base) == Repeated(|calls|, Above(share.input, base))
  {
    if calls != [] {
      SumOfEqual(calls[..|calls| - 1], share, base);
    }
  }

  lemma {:induction false} ShareTimes(n: nat, total: real)
    requires n > 0
    ensures Repeated(n, total / n as real) == total
  {
    RepeatedTimes(n, total / n as real);
  }

  lemma {:induction false} ScaledSign(n: nat, x: real)
    requires n > 0
    ensures n as real * x > 0.0 <==> x > 0.0
  {
  }

  lemma {:induction false} AboveTimes(n: nat, total: real, base: real)
    requires n > 0
    ensures Repeated(n, Above(total / n as real, base)) == Above(total, Repeated(n, base))
  {
    RepeatedTimes(n, base);
    var x := total / n as real;
    RepeatedTimes(n, Above(x, base));
    ShareTimes(n, total);
    RepeatedTimes(n, x);
    assert n as real * (x - base) == total - n as real * base;
    ScaledSign(n, x - base);
  }

  /** The equal shares add up to the turn totals, and the pure input is what the total has above all baselines together. */
  lemma {:induction false} SharesExact(events: seq<Event>, base: real)
    ensures var calls := CallsOf(events, Codex);
            && |calls| == Actions(events) + 1 && (forall i, j | 0 <= i < j < |calls| :: calls[i] == calls[j])
            && RawInput(calls) == TurnInput(events) as real && RawOutput(calls) == TurnOutput(events) as real
            && PureInput(calls, base) == Above(TurnInput(events) as real, Repeated(|calls|, base))
  {
    var n := Actions(events) + 1;
    var input, output := TurnInput(events) as real, TurnOutput(events) as real;
    SumOfEqual(SharedCalls(events), Call(input / n as real, output / n as real), base);
    ShareTimes(n, input);
    ShareTimes(n, output);
    AboveTimes(n, input, base);
  }

  // Between nothing off and one baseline off per call

  predicate AllReach(calls: seq<Call>, base: real) {
    forall i | 0 <= i < |calls| :: calls[i].input >= base
  }

  lemma {:induction false} AllReachNext(calls: seq<Call>, base: real)
    requires calls != []
    ensures AllReach(calls, base) <==> AllReach(calls[..|calls| - 1], base) && calls[|calls| - 1].input >= base
  {
  }

  lemma {:induction false} PureRepeated(calls: seq<Call>, base: real)
    requires base >= 0.0 && AllReach(calls, 0.0)
    ensures RawInput(calls) - Repeated(|calls|, base) <= PureInput(calls, base) <= RawInput(calls)
    ensures PureInput(calls, base) == RawInput(calls) - Repeated(|calls|, base) <==> AllReach(calls, base)
  {
    if calls != [] {
      AllReachNext(calls, 0.0);
      AllReachNext(calls, base);
      PureRepeated(calls[..|calls| - 1], base);
    }
  }

  /** The pure input lies between the raw input less one baseline per call and the raw input, and is the former
      exactly when every call reaches the baseline. */
  lemma {:induction false} PureBounds(events: seq<Event>, tool: Tool, base: real)
    requires base >= 0.0
    ensures var calls := CallsOf(events, tool);
            var (raw, pure) := (RawInput(calls), PureInput(calls, base));
            && raw - Repeated(|calls|, base) <= pure <= raw
            && (pure == raw - Repeated(|calls|, base) <==> AllReach(calls, base))
  {
    var calls := CallsOf(events, tool);
    MessagesReach(events);
    PureRepeated(calls, base);
  }

  lemma {:induction false} MessagesReach(events: seq<Event>)
    ensures AllReach(MessageCalls(events), 0.0)
  {
    if events != [] {
      MessagesReach(events[..|events| - 1]);
    }
  }
}
