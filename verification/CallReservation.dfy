/** The bounded diagnosis of a paid provider: calls are reserved before they are made, and reservations are never refunded. */
module CallReservation {
  import opened Strings

  const MAX_CALLS := 8
  const MAX_INPUT_TOKENS := 16000
  const MAX_OUTPUT_TOKENS := 4000
  const INPUT_KRW_PER_MILLION := 3000
  const OUTPUT_KRW_PER_MILLION := 15000
  const RESERVED_KRW := 108
  const MAX_RESERVED_KRW := 864
  const MILLION := 1_000_000

  /** Token counts as the provider reports them; an absent or null count is None. */
  datatype Usage = Usage(
    prompt: Option<int>, candidates: Option<int>, thoughts: Option<int>, total: Option<int>, toolUse: Option<int>)

  datatype Tokens = Tokens(input: Option<nat>, visible: Option<nat>, thoughts: Option<nat>)

  function Count(n: Option<int>): Option<nat> {
    if n.Some? && n.value >= 0 then Some(n.value) else None
  }

  /** Omitted thoughts count as zero only when the reported total leaves no room for them. */
  function UsageTokens(usage: Option<Usage>): Tokens {
    if usage.None? then Tokens(None, None, None) else
      var u := usage.value;
      var input, visible := Count(u.prompt), Count(u.candidates);
      var reconciles := u.thoughts.None? && input.Some? && visible.Some?
                        && Count(u.total) == Some(input.value + visible.value) && u.toolUse in {None, Some(0)};
      Tokens(input, visible, if reconciles then Some(0) else Count(u.thoughts))
  }

  predicate Known(t: Tokens) {
    t.input.Some? && t.visible.Some? && t.thoughts.Some?
  }

  predicate InLimit(t: Tokens) {
    Known(t) && t.input.value <= MAX_INPUT_TOKENS && t.visible.value + t.thoughts.value <= MAX_OUTPUT_TOKENS
  }

  // The limits, on the counts as they are reported

  predicate Stated(n: Option<int>) {
    n.Some? && n.value >= 0
  }

  /** Prompt and candidates make up the reported total, and no tool was used. */
  predicate NothingElse(u: Usage)
    requires Stated(u.prompt) && Stated(u.candidates)
  {
    u.total == Some(u.prompt.value + u.candidates.value) && (u.toolUse == None || u.toolUse == Some(0))
  }

  /** What was used is known: prompt and candidates are stated, and thoughts are stated or were none. */
  predicate Understood(u: Usage) {
    && Stated(u.prompt) && Stated(u.candidates)
    && (if u.thoughts == None then NothingElse(u) else Stated(u.thoughts))
  }

  function Output(u: Usage): int
    requires Understood(u)
  {
    u.candidates.value + if u.thoughts.Some? then u.thoughts.value else 0
  }

  /** Known usage of at most 16000 prompt tokens and at most 4000 of candidates and thoughts together. */
  predicate WithinLimits(usage: Option<Usage>) {
    usage.Some? && Understood(usage.value) && usage.value.prompt.value <= 16000 && Output(usage.value) <= 4000
  }

  lemma {:induction false} LimitsExactly(usage: Option<Usage>)
    ensures InLimit(UsageTokens(usage)) <==> WithinLimits(usage)
  {
  }

  datatype Status = Responded | Rejected | Failed | Unfinished

  /** What a result file says: how the call ended, the usage observed, and whether the probe decided to halt. */
  datatype Result = Result(status: Status, usage: Option<Usage>, halts: bool)

  /** How an attempt at the provider can end. An abort is a termination the script does not handle as a failure.
      Where nothing was recorded of an answer, the provider may still have given one. */
  datatype Ending =
    | Answered(usage: Option<Usage>)
    | Raised(unseen: Option<Usage>, code: Option<int>)
    | RaisedAfterAnswer(usage: Option<Usage>, code: Option<int>)
    | Aborted(unseen: Option<Usage>)
    | AbortedAfterAnswer(usage: Option<Usage>, judged: bool)

  /** The usage of the answer the provider gave, recorded or not. */
  function Answer(e: Ending): Option<Usage> {
    match e
    case Answered(u) => u
    case Raised(u, _) => u
    case RaisedAfterAnswer(u, _) => u
    case Aborted(u) => u
    case AbortedAfterAnswer(u, _) => u
  }

  function Judged(e: Ending): Result {
    match e
    case Answered(u) => Result(Responded, u, !InLimit(UsageTokens(u)))
    case Raised(_, code) => Result(if code == Some(400) then Rejected else Failed, None, code != Some(400))
    case RaisedAfterAnswer(u, code) => Result(if code == Some(400) then Rejected else Failed, u, code != Some(400))
    case Aborted(_) => Result(Unfinished, None, false)
    case AbortedAfterAnswer(u, judged) => Result(Responded, u, judged && !InLimit(UsageTokens(u)))
  }

  /** The provider's answer, if it was looked at, used more than the limits or an unknown amount; or the call failed, and
      not with a 400. */
  predicate HaltsOn(e: Ending) {
    match e
    case Answered(u) => !WithinLimits(u)
    case Raised(_, code) => code != Some(400)
    case RaisedAfterAnswer(_, code) => code != Some(400)
    case Aborted(_) => false
    case AbortedAfterAnswer(u, judged) => judged && !WithinLimits(u)
  }

  /** What is filed of an attempt: its usage once the answer was recorded, a response unless it raised or gave none. */
  lemma {:induction false} JudgedExactly(e: Ending)
    ensures var r := Judged(e);
            && (r.halts <==> HaltsOn(e))
            && r.usage == (if e.Raised? || e.Aborted? then None else Answer(e))
            && (r.status == Responded <==> e.Answered? || e.AbortedAfterAnswer?)
            && (r.status == Rejected <==> (e.Raised? || e.RaisedAfterAnswer?) && e.code == Some(400))
            && (r.status == Unfinished <==> e.Aborted?)
  {
    LimitsExactly(Answer(e));
  }

  /** The durable state: the budget row, the reserved (label, request hash) pairs in order, and the result files by label. */
  datatype Ledger = Ledger(reserved: nat, halted: bool, calls: seq<(string, string)>, results: map<string, Result>)

  predicate Taken(calls: seq<(string, string)>, name: string, request: string) {
    exists i | 0 <= i < |calls| :: calls[i].0 == name || calls[i].1 == request
  }

  predicate MayReserve(l: Ledger, name: string, request: string) {
    !l.halted && l.reserved < MAX_CALLS && !Taken(l.calls, name, request)
  }

  function Reserve(l: Ledger, name: string, request: string): Ledger {
    if MayReserve(l, name, request) then l.(reserved := l.reserved + 1, calls := l.calls + [(name, request)]) else l
  }

  /** Result files are created exclusively. */
  function SaveResult(l: Ledger, name: string, r: Result): Ledger {
    if name in l.results then l else l.(results := l.results[name := r])
  }

  /** Every recorded attempt is a response whose usage is known and within the limits, and there is one. */
  predicate Reconcilable(results: map<string, Result>) {
    results != map[] && forall k | k in results :: results[k].status == Responded && InLimit(UsageTokens(results[k].usage))
  }

  /** The campaign as the scripts drive it: one budget row, one table of calls, one directory of results. */
  class Campaign {
    var reserved: nat
    var halted: bool
    var calls: seq<(string, string)>
    var results: map<string, Result>

    constructor ()
      ensures Now() == Ledger(0, false, [], map[])
    {
      reserved, halted, calls, results := 0, false, [], map[];
    }

    ghost function Now(): Ledger
      reads this
    {
      Ledger(reserved, halted, calls, results)
    }

    /** One transaction under the lock of the budget row. */
    method ReserveCall(name: string, request: string) returns (ok: bool)
      modifies this
      ensures ok <==> !old(halted) && old(reserved) < 8 && forall i | 0 <= i < |old(calls)| ::
                        old(calls)[i].0 != name && old(calls)[i].1 != request
      ensures Now() == if ok then old(Now()).(reserved := old(reserved) + 1, calls := old(calls) + [(name, request)])
                       else old(Now())
      ensures ok <==> MayReserve(old(Now()), name, request)
    {
      ok := !halted && reserved < MAX_CALLS && !Taken(calls, name, request);
      if ok {
        calls := calls + [(name, request)];
        reserved := reserved + 1;
      }
    }

    method WriteResult(name: string, r: Result) returns (ok: bool)
      modifies this`results
      ensures ok <==> name !in old(results)
      ensures Now() == SaveResult(old(Now()), name, r)
    {
      ok := name !in results;
      if ok {
        results := results[name := r];
      }
    }

    method SetHalted(value: bool)
      modifies this`halted
      ensures Now() == old(Now()).(halted := value)
    {
      halted := value;
    }

    /** A whole undisturbed probe: it makes at most one call, keeps its reservation whatever happens, and files its own
        result, halting the campaign if that says so. A label with a result on file keeps that result; failing to
        file another leaves the halt alone. */
    method Probe(name: string, request: string, provider: Ending) returns (called: bool)
      modifies this
      ensures called <==> MayReserve(old(Now()), name, request)
      ensures !called ==> Now() == old(Now())
      ensures called && name !in old(results) ==>
                Now() == Ledger(old(reserved) + 1, HaltsOn(provider), old(calls) + [(name, request)],
                                old(results)[name := Judged(provider)])
      ensures called && name in old(results) ==> Now() == Reserve(old(Now()), name, request)
    {
      called := ReserveCall(name, request);
      if called {
        var r := Judged(provider);
        JudgedExactly(provider);
        var saved := WriteResult(name, r);
        if saved && r.halts {
          SetHalted(true);
        }
      }
    }

    /** Reconciling reads every result first and clears the halt only when all of them are in-limit responses. */
    method Reconcile() returns (ok: bool)
      modifies this`halted
      ensures ok <==> old(results) != map[] &&
                      forall k | k in old(results) :: old(results)[k].status == Responded && WithinLimits(old(results)[k].usage)
      ensures Now() == if ok then old(Now()).(halted := false) else old(Now())
    {
      forall k | k in results {
        LimitsExactly(results[k].usage);
      }
      ok := results != map[] &&
            forall k | k in results :: results[k].status == Responded && InLimit(UsageTokens(results[k].usage));
      if ok {
        SetHalted(false);
      }
    }

    method Close()
      modifies this`halted
      ensures Now() == old(Now()).(halted := true)
    {
      SetHalted(true);
    }
  }
}
