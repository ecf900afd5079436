/** Replaying recorded events through a coordinator, threading the paper account from event to event. */
module HistoricalReplay {
  import opened Wrappers

  datatype Account = Account(accountId: string, state: string)

  /** `accountIds` are the three account identities embedded in the event's portfolio and provenance. */
  datatype Event = Event(
    eventId: string, requestId: string, cycleId: string, sequence: nat, symbol: string, eventTime: int,
    marketPrice: real, requestedQuantity: Option<real>, accountIds: seq<string>)

  datatype CycleRequest = CycleRequest(
    requestId: string, accountId: string, account: Account, marketPrice: real, eventTime: int, quantity: Option<real>)

  datatype CycleOutcome =
    | STRATEGY_REJECTED | RISK_REJECTED | PLANNING_REJECTED | EXECUTION_REJECTED | CYCLE_DISABLED | CYCLE_COMPLETED

  /** What the coordinator did: raised, returned something else, or returned a cycle result. */
  datatype Response =
    | Raised
    | NotAResult
    | CycleResult(requestId: string, accountId: string, outcome: CycleOutcome, account: Account,
                  decisionSymbols: Option<seq<string>>, riskQuantity: Option<Option<real>>,
                  planSymbols: Option<seq<string>>)

  datatype Ordering = INPUT_ORDER | EVENT_TIME | EVENT_TIME_THEN_SEQUENCE
  datatype FailureMode = STOP_ON_FAILURE | CONTINUE_ON_FAILURE

  datatype Policy = Policy(
    enabled: bool, ordering: Ordering, failureMode: FailureMode, allowEmptyEvents: bool, allowDuplicateEventIds: bool,
    allowDuplicateSequences: bool, requireUniqueRequestIds: bool, maximumEvents: Option<nat>)

  datatype Request = Request(accountId: string, events: seq<Event>, initial: Account)

  /** The coordinator may answer from everything it has been asked so far, the last request being the current
      one; `acceptable` is the validation in the cycle request's constructor. */
  datatype Coordinator = Coordinator(execute: seq<CycleRequest> -> Response, acceptable: CycleRequest -> bool)

  datatype EventStatus = COMPLETED | REJECTED | SKIPPED | FAILED
  datatype Stage = REQUEST_TRANSFORMATION | COORDINATOR_EXECUTION | RESULT_VALIDATION

  datatype EventResult = EventResult(event: Event, status: EventStatus, resultingState: Option<Account>,
                                     failedStage: Option<Stage>)

  // ----- _order

  function Key(ordering: Ordering, e: Event): (int, int) {
    match ordering
    case INPUT_ORDER => (0, 0)
    case EVENT_TIME => (e.eventTime, 0)
    case EVENT_TIME_THEN_SEQUENCE => (e.eventTime, e.sequence)
  }

  predicate AtMost(a: (int, int), b: (int, int)) {
    a.0 < b.0 || (a.0 == b.0 && a.1 <= b.1)
  }

  /** Places an event before the first one whose key is not smaller; it precedes all of them in the input. */
  function Place(ordering: Ordering, e: Event, sorted: seq<Event>): seq<Event> {
    if sorted == [] || AtMost(Key(ordering, e), Key(ordering, sorted[0])) then [e] + sorted
    else [sorted[0]] + Place(ordering, e, sorted[1..])
  }

  /** Sorting by key and then by input position. */
  function Order(ordering: Ordering, events: seq<Event>): seq<Event> {
    if ordering.INPUT_ORDER? || events == [] then events
    else Place(ordering, events[0], Order(ordering, events[1..]))
  }

  ghost predicate InOrder(ordering: Ordering, events: seq<Event>) {
    forall i, j :: 0 <= i < j < |events| ==> AtMost(Key(ordering, events[i]), Key(ordering, events[j]))
  }

  function WithKey(ordering: Ordering, events: seq<Event>, key: (int, int)): seq<Event> {
    if events == [] then []
    else if Key(ordering, events[0]) == key then [events[0]] + WithKey(ordering, events[1..], key)
    else WithKey(ordering, events[1..], key)
  }

  lemma {:induction false} PlaceKeepsElements(ordering: Ordering, e: Event, sorted: seq<Event>)
    ensures multiset(Place(ordering, e, sorted)) == multiset{e} + multiset(sorted)
    decreases |sorted|
  {
    if !(sorted == [] || AtMost(Key(ordering, e), Key(ordering, sorted[0]))) {
      PlaceKeepsElements(ordering, e, sorted[1..]);
      assert sorted == [sorted[0]] + sorted[1..];
    }
  }

  lemma {:induction false} PlaceKeepsOrder(ordering: Ordering, e: Event, sorted: seq<Event>)
    requires InOrder(ordering, sorted)
    ensures InOrder(ordering, Place(ordering, e, sorted))
    ensures forall x :: x in Place(ordering, e, sorted) ==> x == e || x in sorted
    decreases |sorted|
  {
    if !(sorted == [] || AtMost(Key(ordering, e), Key(ordering, sorted[0]))) {
      PlaceKeepsOrder(ordering, e, sorted[1..]);
      var rest := Place(ordering, e, sorted[1..]);
      forall i | 0 <= i < |rest| ensures AtMost(Key(ordering, sorted[0]), Key(ordering, rest[i])) {
        assert rest[i] == e || rest[i] in sorted[1..];
      }
    }
  }

  lemma {:induction false} PlaceIsStable(ordering: Ordering, e: Event, sorted: seq<Event>, key: (int, int))
    requires InOrder(ordering, sorted)
    ensures WithKey(ordering, Place(ordering, e, sorted), key)
         == (if Key(ordering, e) == key then [e] else []) + WithKey(ordering, sorted, key)
    decreases |sorted|
  {
    var placed := Place(ordering, e, sorted);
    if sorted == [] || AtMost(Key(ordering, e), Key(ordering, sorted[0])) {
      assert placed[0] == e && placed[1..] == sorted;
    } else {
      PlaceIsStable(ordering, e, sorted[1..], key);
      assert placed[0] == sorted[0] && placed[1..] == Place(ordering, e, sorted[1..]);
      if Key(ordering, e) == key {
        NoneWithEarlierKey(ordering, sorted, key);
      }
    }
  }

  /** A key below the front of an ordered list cannot be told apart by what comes before it. */
  lemma NoneWithEarlierKey(ordering: Ordering, sorted: seq<Event>, key: (int, int))
    requires sorted != [] && Key(ordering, sorted[0]) != key
    ensures WithKey(ordering, sorted, key) == WithKey(ordering, sorted[1..], key)
  {
  }

  /** The order is a permutation of the input, sorted by key, and events with equal keys keep their order. */
  lemma {:induction false} OrderIsStablePermutation(ordering: Ordering, events: seq<Event>, key: (int, int))
    ensures multiset(Order(ordering, events)) == multiset(events) && |Order(ordering, events)| == |events|
    ensures InOrder(ordering, Order(ordering, events))
    ensures WithKey(ordering, Order(ordering, events), key) == WithKey(ordering, events, key)
    decreases |events|
  {
    if !ordering.INPUT_ORDER? && events != [] {
      OrderIsStablePermutation(ordering, events[1..], key);
      var rest := Order(ordering, events[1..]);
      PlaceKeepsElements(ordering, events[0], rest);
      PlaceKeepsOrder(ordering, events[0], rest);
      PlaceIsStable(ordering, events[0], rest, key);
      assert events == [events[0]] + events[1..];
      assert |multiset(Order(ordering, events))| == |events|;
    }
  }

  /** The events of one time and, if one is asked for, one sequence number. */
  function Of(events: seq<Event>, time: int, sequence: Option<nat>): seq<Event> {
    if events == [] then []
    else (if events[0].eventTime == time && (sequence.None? || events[0].sequence == sequence.value)
          then [events[0]] else [])
         + Of(events[1..], time, sequence)
  }

  lemma {:induction false} TiesByKey(ordering: Ordering, events: seq<Event>, time: int, sequence: nat)
    ensures ordering.EVENT_TIME? ==> WithKey(ordering, events, (time, 0)) == Of(events, time, None)
    ensures ordering.EVENT_TIME_THEN_SEQUENCE?
      ==> WithKey(ordering, events, (time, sequence)) == Of(events, time, Some(sequence))
    decreases |events|
  {
    if events != [] {
      TiesByKey(ordering, events[1..], time, sequence);
    }
  }

  /** The order that each policy asks for: none, by time, or by time and then sequence number; events that it does
      not tell apart stay in the order of the input. */
  lemma OrderFollowsPolicy(ordering: Ordering, events: seq<Event>, i: nat, j: nat, time: int, sequence: nat)
    requires i < j < |events|
    ensures var ordered := Order(ordering, events);
      && multiset(ordered) == multiset(events) && |ordered| == |events|
      && match ordering
         case INPUT_ORDER => ordered == events
         case EVENT_TIME =>
           ordered[i].eventTime <= ordered[j].eventTime && Of(ordered, time, None) == Of(events, time, None)
         case EVENT_TIME_THEN_SEQUENCE =>
           && ordered[i].eventTime <= ordered[j].eventTime
           && (ordered[i].eventTime == ordered[j].eventTime ==> ordered[i].sequence <= ordered[j].sequence)
           && Of(ordered, time, Some(sequence)) == Of(events, time, Some(sequence))
  {
    var ordered := Order(ordering, events);
    var key := if ordering.EVENT_TIME? then (time, 0) else (time, sequence);
    OrderIsStablePermutation(ordering, events, key);
    TiesByKey(ordering, events, time, sequence);
    TiesByKey(ordering, ordered, time, sequence);
    assert AtMost(Key(ordering, ordered[i]), Key(ordering, ordered[j]));
  }

  // ----- one event

  /** The response is a cycle result of this very request: its identity, the replay's account, and the symbol and
      quantity of the event wherever it reports them. */
  predicate IsOwnResult(request: Request, event: Event, response: Response) {
    && response.CycleResult?
    && response.requestId == event.requestId
    && response.accountId == request.accountId && response.account.accountId == request.accountId
    && (response.decisionSymbols.None? || |response.decisionSymbols.value| != 1
        || response.decisionSymbols.value == [event.symbol])
    && (response.riskQuantity.None? || response.riskQuantity == Some(event.requestedQuantity))
    && (response.planSymbols.None? || [event.symbol] <= response.planSymbols.value)
  }

  /** An event's result and, when the coordinator was called, the request it received. */
  datatype Attempt = Attempt(result: EventResult, call: Option<CycleRequest>)

  function Asked(request: Request, event: Event, current: Account): CycleRequest {
    CycleRequest(event.requestId, request.accountId, current, event.marketPrice, event.eventTime,
                 event.requestedQuantity)
  }

  /** What an event's attempt is, by what the coordinator answers to the calls so far and this one: a failure of
      the first stage that does not go well; completed if the cycle was; rejected for each of the other outcomes.
      Only a valid attempt carries an account, the response's. */
  ghost predicate IsAttempt(c: Coordinator, request: Request, event: Event, current: Account, calls: seq<CycleRequest>,
                            attempt: Attempt)
  {
    var asked := CycleRequest(event.requestId, request.accountId, current, event.marketPrice, event.eventTime,
                              event.requestedQuantity);
    var accepted, response := c.acceptable(asked), c.execute(calls + [asked]);
    var own, r := IsOwnResult(request, event, response), attempt.result;
    && r.event == event && attempt.call == (if accepted then Some(asked) else None)
    && (r.status.FAILED? <==> !accepted || !own)
    && (r.status.COMPLETED? <==> accepted && own && response.outcome.CYCLE_COMPLETED?)
    && (r.status.REJECTED? <==>
          accepted && own && (response.outcome.STRATEGY_REJECTED? || response.outcome.RISK_REJECTED?
                              || response.outcome.PLANNING_REJECTED? || response.outcome.EXECUTION_REJECTED?
                              || response.outcome.CYCLE_DISABLED?))
    && r.resultingState == (if accepted && own then Some(response.account) else None)
    && r.failedStage == (if !accepted then Some(REQUEST_TRANSFORMATION)
                         else if response.Raised? then Some(COORDINATOR_EXECUTION)
                         else if !own then Some(RESULT_VALIDATION) else None)
  }

  // ----- the run

  predicate IsValid(r: EventResult) {
    r.status.COMPLETED? || r.status.REJECTED?
  }

  function Results(trace: seq<Attempt>): seq<EventResult> {
    seq(|trace|, i requires 0 <= i < |trace| => trace[i].result)
  }

  /** The coordinator calls made so far, oldest first. */
  function Calls(trace: seq<Attempt>): seq<CycleRequest> {
    if trace == [] then []
    else
      var last := trace[|trace| - 1].call;
      Calls(trace[..|trace| - 1]) + if last.Some? then [last.value] else []
  }

  /** The account after the latest valid event, or the initial one. */
  function Latest(trace: seq<Attempt>, initial: Account): Account {
    if trace == [] then initial
    else
      var r := trace[|trace| - 1].result;
      if IsValid(r) && r.resultingState.Some? then r.resultingState.value else Latest(trace[..|trace| - 1], initial)
  }

  predicate HasFailed(trace: seq<Attempt>) {
    exists i :: 0 <= i < |trace| && trace[i].result.status.FAILED?
  }

  /** What happens to the event after `trace`: skipped after a failure in stop mode, otherwise tried on the
      account left by the latest valid event. */
  ghost predicate IsNext(c: Coordinator, policy: Policy, request: Request, trace: seq<Attempt>, event: Event,
                         attempt: Attempt)
  {
    if policy.failureMode.STOP_ON_FAILURE? && HasFailed(trace)
      then attempt == Attempt(EventResult(event, SKIPPED, None, None), None)
    else IsAttempt(c, request, event, Latest(trace, request.initial), Calls(trace), attempt)
  }

  /** Each position is explained by what came before it and by nothing else. */
  ghost predicate IsRun(c: Coordinator, policy: Policy, request: Request, events: seq<Event>, trace: seq<Attempt>) {
    && |trace| == |events|
    && forall i {:trigger IsNext(c, policy, request, trace[..i], events[i], trace[i])} ::
         0 <= i < |trace| ==> IsNext(c, policy, request, trace[..i], events[i], trace[i])
  }

  function Count(results: seq<EventResult>, status: EventStatus): nat {
    if results == [] then 0
    else Count(results[..|results| - 1], status) + if results[|results| - 1].status == status then 1 else 0
  }

  /** The checks on what the coordinator returned; false is a raised error. */
  method ValidateResult(request: Request, event: Event, asked: CycleRequest, response: Response) returns (ok: bool)
    requires asked.requestId == event.requestId
    ensures ok <==> IsOwnResult(request, event, response)
  {
    if !response.CycleResult? {
      return false;
    }
    if response.requestId != asked.requestId || response.accountId != request.accountId
       || response.account.accountId != request.accountId {
      return false;
    }
    if response.decisionSymbols.Some? && |response.decisionSymbols.value| == 1
       && response.decisionSymbols.value[0] != event.symbol {
      return false;
    }
    if response.riskQuantity.Some? && response.riskQuantity.value != event.requestedQuantity {
      return false;
    }
    if response.planSymbols.Some?
       && (response.planSymbols.value == [] || response.planSymbols.value[0] != event.symbol) {
      return false;
    }
    return true;
  }

  /** The three guarded stages of one event. */
  method TryEvent(c: Coordinator, request: Request, event: Event, current: Account, calls: seq<CycleRequest>)
    returns (r: EventResult, calls': seq<CycleRequest>, ghost attempt: Attempt)
    ensures IsAttempt(c, request, event, current, calls, attempt) && r == attempt.result
    ensures calls' == calls + if attempt.call.Some? then [attempt.call.value] else []
    ensures if IsValid(r) then r.resultingState.Some? else r.status.FAILED?
  {
    calls' := calls;
    var asked := Asked(request, event, current);
    if !c.acceptable(asked) {
      r := EventResult(event, FAILED, None, Some(REQUEST_TRANSFORMATION));
      return r, calls', Attempt(r, None);
    }
    calls' := calls + [asked];
    var response := c.execute(calls');
    if response.Raised? {
      r := EventResult(event, FAILED, None, Some(COORDINATOR_EXECUTION));
      return r, calls', Attempt(r, Some(asked));
    }
    var ok := ValidateResult(request, event, asked, response);
    if !ok {
      r := EventResult(event, FAILED, None, Some(RESULT_VALIDATION));
      return r, calls', Attempt(r, Some(asked));
    }
    var rejected := response.outcome in
      {STRATEGY_REJECTED, RISK_REJECTED, PLANNING_REJECTED, EXECUTION_REJECTED, CYCLE_DISABLED};
    r := EventResult(event, if rejected then REJECTED else COMPLETED, Some(response.account), None);
    return r, calls', Attempt(r, Some(asked));
  }

  lemma ValidAppend(results: seq<EventResult>, r: EventResult)
    ensures var all := results + [r];
      Count(all, COMPLETED) + Count(all, REJECTED)
        == Count(results, COMPLETED) + Count(results, REJECTED) + if IsValid(r) then 1 else 0
  {
    assert (results + [r])[..|results|] == results;
  }

  /** The loop over the ordered events. */
  method RunEvents(c: Coordinator, policy: Policy, request: Request, events: seq<Event>)
    returns (results: seq<EventResult>, current: Account, valid: nat, calls: seq<CycleRequest>,
             ghost trace: seq<Attempt>)
    ensures IsRun(c, policy, request, events, trace) && results == Results(trace) && calls == Calls(trace)
    ensures current == Latest(trace, request.initial)
    ensures valid == Count(results, COMPLETED) + Count(results, REJECTED)
  {
    results, current, valid, calls, trace := [], request.initial, 0, [], [];
    var stopped := false;
    for i := 0 to |events|
      invariant IsRun(c, policy, request, events[..i], trace) && results == Results(trace)
      invariant current == Latest(trace, request.initial) && calls == Calls(trace)
      invariant stopped <==> policy.failureMode.STOP_ON_FAILURE? && HasFailed(trace)
      invariant valid == Count(results, COMPLETED) + Count(results, REJECTED)
    {
      var r := EventResult(events[i], SKIPPED, None, None);
      ghost var attempt := Attempt(r, None);
      if stopped {
        TraceAppend(c, policy, request, events, i, trace, attempt);
      } else {
        r, calls, attempt := TryEvent(c, request, events[i], current, calls);
        TraceAppend(c, policy, request, events, i, trace, attempt);
        if IsValid(r) {
          current, valid := r.resultingState.value, valid + 1;
        } else {
          stopped := policy.failureMode.STOP_ON_FAILURE?;
        }
      }
      ValidAppend(results, r);
      results := results + [r];
      trace := trace + [attempt];
    }
    assert events[..|events|] == events;
  }

  lemma RunAppend(c: Coordinator, policy: Policy, request: Request, events: seq<Event>, i: nat,
                  trace: seq<Attempt>, attempt: Attempt)
    requires i < |events| && IsRun(c, policy, request, events[..i], trace)
    requires IsNext(c, policy, request, trace, events[i], attempt)
    ensures IsRun(c, policy, request, events[..i + 1], trace + [attempt])
  {
    var all := trace + [attempt];
    assert all[..i] == trace;
    forall k | 0 <= k < |all| ensures IsNext(c, policy, request, all[..k], events[..i + 1][k], all[k]) {
      if k < i {
        assert all[..k] == trace[..k] && events[..i][k] == events[k];
        assert IsNext(c, policy, request, trace[..k], events[..i][k], trace[k]);
      }
    }
  }

  lemma FailedAppend(trace: seq<Attempt>, attempt: Attempt)
    ensures HasFailed(trace + [attempt]) <==> HasFailed(trace) || attempt.result.status.FAILED?
  {
    var all := trace + [attempt];
    if HasFailed(trace) {
      var k :| 0 <= k < |trace| && trace[k].result.status.FAILED?;
      assert all[k].result.status.FAILED?;
    }
    if attempt.result.status.FAILED? {
      assert all[|trace|].result.status.FAILED?;
    }
  }

  lemma ContentsAppend(trace: seq<Attempt>, attempt: Attempt, initial: Account)
    ensures Results(trace + [attempt]) == Results(trace) + [attempt.result]
    ensures Calls(trace + [attempt]) == Calls(trace) + if attempt.call.Some? then [attempt.call.value] else []
    ensures Latest(trace + [attempt], initial) ==
      if IsValid(attempt.result) && attempt.result.resultingState.Some? then attempt.result.resultingState.value
      else Latest(trace, initial)
  {
    assert (trace + [attempt])[..|trace|] == trace;
  }

  /** What one more attempt adds to the run, its results, its calls and the account. */
  lemma TraceAppend(c: Coordinator, policy: Policy, request: Request, events: seq<Event>, i: nat,
                    trace: seq<Attempt>, attempt: Attempt)
    requires i < |events| && IsRun(c, policy, request, events[..i], trace)
    requires IsNext(c, policy, request, trace, events[i], attempt)
    ensures IsRun(c, policy, request, events[..i + 1], trace + [attempt])
    ensures Results(trace + [attempt]) == Results(trace) + [attempt.result]
    ensures Calls(trace + [attempt]) == Calls(trace) + if attempt.call.Some? then [attempt.call.value] else []
    ensures Latest(trace + [attempt], request.initial) ==
      if IsValid(attempt.result) && attempt.result.resultingState.Some? then attempt.result.resultingState.value
      else Latest(trace, request.initial)
    ensures HasFailed(trace + [attempt]) <==> HasFailed(trace) || attempt.result.status.FAILED?
  {
    RunAppend(c, policy, request, events, i, trace, attempt);
    FailedAppend(trace, attempt);
    ContentsAppend(trace, attempt, request.initial);
  }

  lemma {:induction false} CallIsAttempt(trace: seq<Attempt>, j: nat) returns (i: nat)
    requires j < |Calls(trace)|
    ensures i < |trace| && trace[i].call == Some(Calls(trace)[j]) && |Calls(trace[..i])| == j
    decreases |trace|
  {
    var n := |trace| - 1;
    if j < |Calls(trace[..n])| {
      i := CallIsAttempt(trace[..n], j);
      assert trace[..n][..i] == trace[..i];
    } else {
      i := n;
    }
  }

  /** The call that the coordinator receives as number `j` is the attempt on some event `i`, after exactly `j`
      calls for the events before it, and carries the account left by the latest valid one of those. */
  lemma CallsCarryLatestAccount(c: Coordinator, policy: Policy, request: Request, events: seq<Event>,
                                trace: seq<Attempt>, j: nat)
    returns (i: nat)
    requires IsRun(c, policy, request, events, trace) && j < |Calls(trace)|
    ensures i < |events| && |Calls(trace[..i])| == j && Calls(trace)[j].requestId == events[i].requestId
    ensures Calls(trace)[j].account == Latest(trace[..i], request.initial)
  {
    i := CallIsAttempt(trace, j);
    assert IsNext(c, policy, request, trace[..i], events[i], trace[i]);
  }

  /** With stop-on-failure nothing but skips follows a failure, so there is at most one failure. */
  lemma StopsAfterFailure(c: Coordinator, policy: Policy, request: Request, events: seq<Event>, trace: seq<Attempt>,
                          i: nat, j: nat)
    requires IsRun(c, policy, request, events, trace) && i < j < |trace|
    requires policy.failureMode.STOP_ON_FAILURE? && trace[i].result.status.FAILED?
    ensures trace[j].result.status.SKIPPED? && trace[j].call.None?
  {
    assert trace[..j][i] == trace[i];
    assert IsNext(c, policy, request, trace[..j], events[j], trace[j]);
  }

  lemma {:induction false} SilenceAddsNoCalls(trace: seq<Attempt>, m: nat, n: nat)
    requires m <= n <= |trace| && forall k :: m <= k < n ==> trace[k].call.None?
    ensures Calls(trace[..n]) == Calls(trace[..m])
    decreases n
  {
    if m < n {
      assert trace[..n][..n - 1] == trace[..n - 1] && trace[..n][n - 1] == trace[n - 1];
      SilenceAddsNoCalls(trace, m, n - 1);
    }
  }

  /** With stop-on-failure the coordinator receives no call after the failure: all calls of the run had been
      made when it happened. */
  lemma {:induction false} NoCallAfterFailure(c: Coordinator, policy: Policy, request: Request, events: seq<Event>,
                                              trace: seq<Attempt>, i: nat)
    requires IsRun(c, policy, request, events, trace) && i < |trace|
    requires policy.failureMode.STOP_ON_FAILURE? && trace[i].result.status.FAILED?
    ensures Calls(trace) == Calls(trace[..i + 1])
  {
    forall k | i + 1 <= k < |trace| ensures trace[k].call.None? {
      StopsAfterFailure(c, policy, request, events, trace, i, k);
    }
    SilenceAddsNoCalls(trace, i + 1, |trace|);
    assert trace[..|trace|] == trace;
  }

  /** Skips happen only in stop mode and only after a failure. */
  lemma SkipsOnlyAfterFailure(c: Coordinator, policy: Policy, request: Request, events: seq<Event>,
                              trace: seq<Attempt>, j: nat)
    requires IsRun(c, policy, request, events, trace) && j < |trace| && trace[j].result.status.SKIPPED?
    ensures policy.failureMode.STOP_ON_FAILURE? && exists i :: 0 <= i < j && trace[i].result.status.FAILED?
  {
    assert IsNext(c, policy, request, trace[..j], events[j], trace[j]);
    var k :| 0 <= k < |trace[..j]| && trace[..j][k].result.status.FAILED?;
    assert trace[k].result.status.FAILED?;
  }

  // ----- the assembled result

  datatype Progress = Progress(total: nat, processed: nat, completed: nat, rejected: nat, skipped: nat, failed: nat,
                               lastProcessed: Option<Event>)

  datatype ReplayStatus = RUN_COMPLETED | RUN_PARTIAL | RUN_DISABLED | RUN_EMPTY | RUN_FAILED

  datatype ReplayResult = ReplayResult(
    status: ReplayStatus, results: seq<EventResult>, progress: Progress, finalState: Option<Account>, disabled: bool)

  predicate ProgressAccepted(p: Progress) {
    p.completed + p.rejected + p.failed == p.processed && p.processed + p.skipped <= p.total
  }

  function LastValid(results: seq<EventResult>): Option<EventResult> {
    if results == [] then None
    else if IsValid(results[|results| - 1]) then Some(results[|results| - 1])
    else LastValid(results[..|results| - 1])
  }

  /** The checks of the two result constructors. */
  predicate ResultAccepted(accountId: string, r: ReplayResult) {
    && ProgressAccepted(r.progress)
    && (if r.status.RUN_DISABLED? then r.results == [] else |r.results| == r.progress.total)
    && (if r.results != [] then
          && r.progress.completed == Count(r.results, COMPLETED) && r.progress.rejected == Count(r.results, REJECTED)
          && r.progress.failed == Count(r.results, FAILED) && r.progress.skipped == Count(r.results, SKIPPED)
          && (LastValid(r.results).Some? ==> r.finalState == LastValid(r.results).value.resultingState)
          && r.status == (if r.progress.failed == 0 then RUN_COMPLETED
                          else if r.progress.completed + r.progress.rejected > 0 then RUN_PARTIAL else RUN_FAILED)
        else r.status.RUN_DISABLED? || r.status.RUN_EMPTY?)
    && (r.finalState.Some? ==> r.finalState.value.accountId == accountId)
    && (r.disabled <==> r.status.RUN_DISABLED?)
  }

  predicate EventAccepted(accountId: string, e: Event) {
    && (forall k :: 0 <= k < |e.accountIds| ==> e.accountIds[k] == accountId)
    && e.requestedQuantity.Some? && e.requestedQuantity.value > 0.0
  }

  /** Two different events do not clash in any identity that the policy, or the replay itself, wants unique. */
  predicate NoClash(policy: Policy, a: Event, b: Event) {
    && a.cycleId != b.cycleId
    && (a.eventId == b.eventId ==> policy.allowDuplicateEventIds)
    && (a.sequence == b.sequence ==> policy.allowDuplicateSequences)
    && (a.requestId == b.requestId ==> !policy.requireUniqueRequestIds)
  }

  /** What an enabled policy accepts. */
  predicate RequestAccepted(policy: Policy, request: Request) {
    var events := request.events;
    && (|events| == 0 ==> policy.allowEmptyEvents)
    && (policy.maximumEvents.Some? ==> |events| <= policy.maximumEvents.value)
    && (forall i, j :: 0 <= i < j < |events| ==> NoClash(policy, events[i], events[j]))
    && forall i :: 0 <= i < |events| ==> EventAccepted(request.accountId, events[i])
  }

  /** `len({f(x) for x in events}) != len(events)`. */
  predicate HasRepeats<T(==)>(events: seq<Event>, f: Event -> T) {
    |Values(events, f)| != |events|
  }

  function Values<T(==)>(events: seq<Event>, f: Event -> T): set<T> {
    set e | e in events :: f(e)
  }

  predicate Clashes<T(==)>(events: seq<Event>, f: Event -> T) {
    exists i, j :: 0 <= i < j < |events| && f(events[i]) == f(events[j])
  }

  lemma {:induction false} RepeatsAreClashes<T>(events: seq<Event>, f: Event -> T)
    ensures |Values(events, f)| <= |events| && (HasRepeats(events, f) <==> Clashes(events, f))
    decreases |events|
  {
    if events != [] {
      var init, last := events[..|events| - 1], events[|events| - 1];
      RepeatsAreClashes(init, f);
      assert forall e :: e in events <==> e in init || e == last;
      assert Values(events, f) == Values(init, f) + {f(last)};
      ClashesGrow(events, f);
    }
  }

  lemma ClashesGrow<T>(events: seq<Event>, f: Event -> T)
    requires events != []
    ensures var init, last := events[..|events| - 1], events[|events| - 1];
      Clashes(events, f) <==> Clashes(init, f) || f(last) in Values(init, f)
  {
    var n := |events| - 1;
    if Clashes(events, f) {
      ClashIsInInitOrLast(events, f);
    }
    if f(events[n]) in Values(events[..n], f) {
      var e :| e in events[..n] && f(e) == f(events[n]);
      var i :| 0 <= i < n && events[..n][i] == e;
      assert f(events[i]) == f(events[n]);
    }
    if Clashes(events[..n], f) {
      var i, j :| 0 <= i < j < n && f(events[..n][i]) == f(events[..n][j]);
      assert f(events[i]) == f(events[j]);
    }
  }

  lemma ClashIsInInitOrLast<T>(events: seq<Event>, f: Event -> T)
    requires Clashes(events, f)
    ensures var n := |events| - 1; Clashes(events[..n], f) || f(events[n]) in Values(events[..n], f)
  {
    var n := |events| - 1;
    var i, j :| 0 <= i < j < |events| && f(events[i]) == f(events[j]);
    assert events[..n][i] == events[i] && events[i] in events[..n];
    if j < n {
      assert f(events[..n][i]) == f(events[..n][j]);
    }
  }

  /** The four checks for repeated identities, by pairs of events. */
  lemma RepeatsBreakUniqueness(policy: Policy, events: seq<Event>)
    ensures (forall i, j :: 0 <= i < j < |events| ==> NoClash(policy, events[i], events[j])) <==>
      && !HasRepeats(events, (e: Event) => e.cycleId)
      && (policy.allowDuplicateEventIds || !HasRepeats(events, (e: Event) => e.eventId))
      && (policy.allowDuplicateSequences || !HasRepeats(events, (e: Event) => e.sequence))
      && (!policy.requireUniqueRequestIds || !HasRepeats(events, (e: Event) => e.requestId))
  {
    RepeatsAreClashes(events, (e: Event) => e.eventId);
    RepeatsAreClashes(events, (e: Event) => e.sequence);
    RepeatsAreClashes(events, (e: Event) => e.requestId);
    RepeatsAreClashes(events, (e: Event) => e.cycleId);
  }

  /** The checks of `validate_request`; false is the error. */
  method ValidateRequest(policy: Policy, request: Request) returns (ok: bool)
    ensures ok <==> RequestAccepted(policy, request)
  {
    var events := request.events;
    RepeatsBreakUniqueness(policy, events);
    if events == [] && !policy.allowEmptyEvents {
      return false;
    }
    if policy.maximumEvents.Some? && |events| > policy.maximumEvents.value {
      return false;
    }
    if (!policy.allowDuplicateEventIds && HasRepeats(events, (e: Event) => e.eventId))
       || (!policy.allowDuplicateSequences && HasRepeats(events, (e: Event) => e.sequence))
       || (policy.requireUniqueRequestIds && HasRepeats(events, (e: Event) => e.requestId))
       || HasRepeats(events, (e: Event) => e.cycleId) {
      return false;
    }
    for i := 0 to |events|
      invariant forall k :: 0 <= k < i ==> EventAccepted(request.accountId, events[k])
    {
      if (exists k :: 0 <= k < |events[i].accountIds| && events[i].accountIds[k] != request.accountId)
         || events[i].requestedQuantity.None? || events[i].requestedQuantity.value <= 0.0 {
        return false;
      }
    }
    return true;
  }

  lemma {:induction false} CountsAddUp(results: seq<EventResult>)
    ensures Count(results, COMPLETED) + Count(results, REJECTED) + Count(results, SKIPPED)
      + Count(results, FAILED) == |results|
    decreases |results|
  {
    if results != [] {
      CountsAddUp(results[..|results| - 1]);
    }
  }

  /** Valid results carry the account of a validated response, whose identity is the replay's. */
  lemma ValidResultsCarryAccounts(c: Coordinator, policy: Policy, request: Request, events: seq<Event>,
                                  trace: seq<Attempt>, i: nat)
    requires IsRun(c, policy, request, events, trace) && i < |trace| && IsValid(trace[i].result)
    ensures trace[i].result.resultingState.Some? && trace[i].result.resultingState.value.accountId == request.accountId
  {
    assert IsNext(c, policy, request, trace[..i], events[i], trace[i]);
  }

  lemma {:induction false} LastValidIsLatest(trace: seq<Attempt>, accountId: string, initial: Account)
    requires forall i :: 0 <= i < |trace| && IsValid(trace[i].result) ==>
               trace[i].result.resultingState.Some? && trace[i].result.resultingState.value.accountId == accountId
    ensures var last := LastValid(Results(trace));
      && (last.Some? <==> Count(Results(trace), COMPLETED) + Count(Results(trace), REJECTED) > 0)
      && (last.Some? ==>
            last.value.resultingState == Some(Latest(trace, initial)) && Latest(trace, initial).accountId == accountId)
      && (last.None? ==> Latest(trace, initial) == initial)
    decreases |trace|
  {
    if trace != [] {
      LastValidIsLatest(trace[..|trace| - 1], accountId, initial);
      assert Results(trace)[..|trace| - 1] == Results(trace[..|trace| - 1]);
    }
  }

  function LastReached(results: seq<EventResult>): Option<Event> {
    if results == [] then None
    else if !results[|results| - 1].status.SKIPPED? then Some(results[|results| - 1].event)
    else LastReached(results[..|results| - 1])
  }

  /** The event of the last result that is not a skip, if there is one. */
  ghost predicate IsLastReached(results: seq<EventResult>, reached: Option<Event>) {
    if reached.None? then forall i :: 0 <= i < |results| ==> results[i].status.SKIPPED?
    else
      exists k :: 0 <= k < |results| && results[k].event == reached.value && !results[k].status.SKIPPED?
                  && forall i :: k < i < |results| ==> results[i].status.SKIPPED?
  }

  lemma {:induction false} LastReachedIsLast(results: seq<EventResult>)
    ensures IsLastReached(results, LastReached(results))
    decreases |results|
  {
    if results != [] && results[|results| - 1].status.SKIPPED? {
      var init := results[..|results| - 1];
      LastReachedIsLast(init);
      if LastReached(init).Some? {
        var k :| 0 <= k < |init| && init[k].event == LastReached(init).value && !init[k].status.SKIPPED?
          && forall i :: k < i < |init| ==> init[i].status.SKIPPED?;
        assert results[k] == init[k];
      } else {
        assert forall i :: 0 <= i < |init| ==> results[i] == init[i];
      }
    }
  }

  function Statuses(results: seq<EventResult>): seq<EventStatus> {
    seq(|results|, i requires 0 <= i < |results| => results[i].status)
  }

  /** Counting is counting occurrences. */
  lemma {:induction false} CountsOccurrences(results: seq<EventResult>, status: EventStatus)
    ensures Count(results, status) == multiset(Statuses(results))[status]
    decreases |results|
  {
    if results != [] {
      var init := results[..|results| - 1];
      CountsOccurrences(init, status);
      assert Statuses(results) == Statuses(init) + [results[|results| - 1].status];
    }
  }

  /** The whole replay; None is a validation error. Whatever the coordinator does, the assembled result passes
      the checks of its own constructors, so no run is lost to an inconsistent summary. */
  method Replay(c: Coordinator, policy: Policy, request: Request)
    returns (r: Option<ReplayResult>, calls: seq<CycleRequest>, ghost trace: seq<Attempt>)
    requires request.initial.accountId == request.accountId
    ensures r.Some? <==> !policy.enabled || RequestAccepted(policy, request)
    ensures r.Some? ==> ResultAccepted(request.accountId, r.value)
    ensures r.Some? && policy.enabled ==>
      r.value.results == Results(trace) && IsLastReached(r.value.results, r.value.progress.lastProcessed)
    ensures calls == Calls(trace) && (r.None? || !policy.enabled ==> calls == [])
    ensures r.Some? && policy.enabled ==> IsRun(c, policy, request, Order(policy.ordering, request.events), trace)
    ensures r.Some? && policy.enabled && request.events != []
      ==> r.value.finalState == if LastValid(r.value.results).Some? then Some(Latest(trace, request.initial)) else None
    ensures r.Some? && (!policy.enabled || request.events == []) ==> r.value.finalState == Some(request.initial)
  {
    calls, trace := [], [];
    if !policy.enabled {
      var progress := Progress(|request.events|, 0, 0, 0, 0, 0, None);
      return Some(ReplayResult(RUN_DISABLED, [], progress, Some(request.initial), true)), calls, trace;
    }
    var ok := ValidateRequest(policy, request);
    if !ok {
      return None, calls, trace;
    }
    var ordered := Order(policy.ordering, request.events);
    OrderIsStablePermutation(policy.ordering, request.events, (0, 0));
    if ordered == [] {
      var progress := Progress(0, 0, 0, 0, 0, 0, None);
      return Some(ReplayResult(RUN_EMPTY, [], progress, Some(request.initial), false)), calls, trace;
    }
    var results, current, valid;
    results, current, valid, calls, trace := RunEvents(c, policy, request, ordered);
    var completed, rejected := Count(results, COMPLETED), Count(results, REJECTED);
    var failed, skipped := Count(results, FAILED), Count(results, SKIPPED);
    var processed := completed + rejected + failed;
    var progress := Progress(|ordered|, processed, completed, rejected, skipped, failed, LastReached(results));
    var status := if failed == 0 then RUN_COMPLETED else if valid > 0 then RUN_PARTIAL else RUN_FAILED;
    CountsAddUp(results);
    LastReachedIsLast(results);
    forall i | 0 <= i < |trace| && IsValid(trace[i].result)
      ensures trace[i].result.resultingState.Some?
        && trace[i].result.resultingState.value.accountId == request.accountId
    {
      ValidResultsCarryAccounts(c, policy, request, ordered, trace, i);
    }
    LastValidIsLatest(trace, request.accountId, request.initial);
    var final := if valid > 0 then Some(current) else None;
    return Some(ReplayResult(status, results, progress, final, false)), calls, trace;
  }
}
