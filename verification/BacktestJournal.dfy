/** The event journal of a replay run accounts for its counters, its histories and its pending orders. */
module BacktestJournal {
  import opened Wrappers
  import opened PurchaseLots
  import opened PaperTrading
  import opened Iteration
  import opened Backtest
  import GoodFaith

  // ----- counters are folds of the journal

  datatype Tally = Tally(approved: int, denied: int, deniedIntent: int, invalid: int, filled: int, executionDenied: int)

  function Bump(t: Tally, kind: EventType, status: EventStatus): Tally {
    match (kind, status)
    case (ORDER_COMPLIANCE, APPROVED) => t.(approved := t.approved + 1)
    case (ORDER_COMPLIANCE, DENIED) => t.(denied := t.denied + 1)
    case (ORDER_COMPLIANCE, DENIED_INTENT) => t.(deniedIntent := t.deniedIntent + 1)
    case (AI_REJECTION, INVALID) => t.(invalid := t.invalid + 1)
    case (PAPER_EXECUTION, WAS_FILLED) => t.(filled := t.filled + 1)
    case (PAPER_EXECUTION, DENIED) => t.(executionDenied := t.executionDenied + 1)
    case (_, _) => t
  }

  function Tallied(events: seq<ReplayEvent>): Tally {
    if events == [] then Tally(0, 0, 0, 0, 0, 0)
    else Bump(Tallied(events[..|events| - 1]), events[|events| - 1].eventType, events[|events| - 1].status)
  }

  predicate Numbered(events: seq<ReplayEvent>) {
    forall i :: 0 <= i < |events| ==> events[i].sequence == i + 1
  }

  /** Every counter is the number of journal events of its kind, and every history has the matching length. */
  predicate Accounted(s: RunState) {
    var t := Tallied(s.events);
    && Numbered(s.events)
    && s.proposals == t.approved + t.denied && s.approved == t.approved && s.filled == t.filled
    && s.rejected == t.denied + t.deniedIntent + t.invalid + t.executionDenied
    && |s.history| == s.filled + 1 && |s.curve| == s.filled + 1
  }

  lemma AppendTally(events: seq<ReplayEvent>, e: ReplayEvent)
    ensures Tallied(events + [e]) == Bump(Tallied(events), e.eventType, e.status)
    ensures Numbered(events) && e.sequence == |events| + 1 ==> Numbered(events + [e])
  {
    assert (events + [e])[..|events|] == events;
  }

  lemma EmitTally(s: RunState, index: int, time: Moment, kind: EventType, status: EventStatus,
                  details: seq<(string, string)>)
    ensures var s' := Emit(s, index, time, kind, status, details);
      Tallied(s'.events) == Bump(Tallied(s.events), kind, status) && (Numbered(s.events) ==> Numbered(s'.events))
  {
    AppendTally(s.events, ReplayEvent(|s.events| + 1, index, time, kind, status, details));
  }

  /** Events of these kinds are counted nowhere. */
  predicate Uncounted(kind: EventType, status: EventStatus) {
    !kind.ORDER_COMPLIANCE? && !kind.PAPER_EXECUTION? && !(kind.AI_REJECTION? && status.INVALID?)
  }

  lemma UncountedEmit(s: RunState, index: int, time: Moment, kind: EventType, status: EventStatus,
                      details: seq<(string, string)>)
    requires Accounted(s) && Uncounted(kind, status)
    ensures Accounted(Emit(s, index, time, kind, status, details))
  {
    EmitTally(s, index, time, kind, status, details);
  }

  lemma PlaceKeepsLength(o: Observation, sorted: seq<Observation>)
    ensures |PlaceObservation(o, sorted)| == |sorted| + 1
  {
  }

  lemma {:induction false} SortKeepsLength(os: seq<Observation>)
    ensures |SortObservations(os)| == |os|
    decreases |os|
  {
    if os != [] {
      SortKeepsLength(os[1..]);
      PlaceKeepsLength(os[0], SortObservations(os[1..]));
    }
  }

  lemma ObserveAccounts(inp: Inputs, s: RunState, index: nat)
    requires index < |inp.frames| && Accounted(s) && Observe(inp, s, index).Some?
    ensures Accounted(Observe(inp, s, index).value)
    ensures |Observe(inp, s, index).value.observations| == |s.observations| + 1
  {
    var o := ObservationOf(inp.frames[index]);
    SortKeepsLength(s.observations + [o]);
    EmitTally(s.(observations := SortObservations(s.observations + [o])), index, o.time, CANDLE, PROCESSED, []);
  }

  lemma ExecuteAccounts(c: Engine, inp: Inputs, s: RunState, index: nat)
    requires index < |inp.frames| && Accounted(s) && ExecutePending(c, inp, s, index).Some?
    ensures Accounted(ExecutePending(c, inp, s, index).value)
    ensures ExecutePending(c, inp, s, index).value.observations == s.observations
  {
    if s.pending.Some? {
      var order := c.decodeOrder(s.pending.value.orderJson).value;
      var decision := c.decodeDecision(s.pending.value.decisionJson).value;
      var frame := inp.frames[index];
      var sim := Simulate(c.market, s.portfolio, order, decision, QuoteOf(frame), s.paperJournal, s.curve).value;
      var price := SimulationShape(c.market, s.portfolio, order, decision, QuoteOf(frame), s.paperJournal, s.curve);
      ExecutedAccounts(s, index, frame.candle.closeTime, sim);
    }
  }

  lemma ExecutedAccounts(s: RunState, index: nat, time: Moment, sim: Simulation)
    requires Accounted(s) && |sim.curve| == |s.curve| + (if sim.status.FILLED? then 1 else 0)
    ensures Accounted(Executed(s, index, time, sim))
  {
    AppendTally(s.events, ReplayEvent(|s.events| + 1, index, time, PAPER_EXECUTION, ExecutionStatus(sim.status), []));
  }

  lemma AnalyzedAccounts(s: RunState, index: nat, time: Moment, a: Analysis)
    requires Accounted(s)
    ensures Accounted(Analyzed(s, index, time, a)) && Analyzed(s, index, time, a).observations == s.observations
  {
    UncountedEmit(s, index, time, INDICATORS, BUILT, []);
    var s1 := Emit(s, index, time, INDICATORS, BUILT, []);
    UncountedEmit(s1, index, time, STRATEGY, Advised(a.score), []);
    UncountedEmit(Emit(s1, index, time, STRATEGY, Advised(a.score), []), index, time, PROMPT, BUILT, a.promptDetails);
  }

  lemma AfterGfvAccounts(s: RunState, index: int, time: Moment, gfv: Option<GoodFaith.Decision>)
    requires Accounted(s)
    ensures Accounted(AfterGfv(s, index, time, gfv)) && AfterGfv(s, index, time, gfv).observations == s.observations
  {
    if gfv.Some? {
      UncountedEmit(s, index, time, GFV, Verdict(gfv.value.approved), []);
    }
  }

  lemma CompliedAccounts(c: Engine, s: RunState, index: int, time: Moment, proposal: Proposal, d: Compliance)
    requires Accounted(s)
    ensures Accounted(Complied(c, s, index, time, proposal, d))
    ensures Complied(c, s, index, time, proposal, d).observations == s.observations
  {
    AppendTally(s.events,
                ReplayEvent(|s.events| + 1, index, time, ORDER_COMPLIANCE, Verdict(d.approved), []));
  }

  lemma ProposeAccounts(c: Engine, inp: Inputs, s: RunState, index: nat, i: Intent, risk: Risk)
    requires index < |inp.frames| && Accounted(s) && Propose(c, inp, s, index, i, risk).Some?
    ensures Accounted(Propose(c, inp, s, index, i, risk).value)
    ensures Propose(c, inp, s, index, i, risk).value.observations == s.observations
  {
    var time := inp.frames[index].candle.closeTime;
    var gfv := GfvDecision(inp, s, i, time);
    AfterGfvAccounts(s, index, time, gfv);
    var s1 := AfterGfv(s, index, time, gfv);
    var d := c.comply(ProposalOf(i, time), s1.portfolio, s1.filled, inp.frames[index].marketState, gfv, risk).value;
    CompliedAccounts(c, s1, index, time, ProposalOf(i, time), d);
  }

  lemma RejectionAccounts(s: RunState, index: nat, time: Moment, kind: EventType, status: EventStatus,
                          details: seq<(string, string)>)
    requires Accounted(s)
    requires (kind.AI_REJECTION? && status.INVALID?) || (kind.ORDER_COMPLIANCE? && status.DENIED_INTENT?)
    ensures Accounted(Emit(s, index, time, kind, status, details).(next := index + 1, rejected := s.rejected + 1))
  {
    if kind.AI_REJECTION? {
      EmitTally(s, index, time, AI_REJECTION, INVALID, details);
    } else {
      EmitTally(s, index, time, ORDER_COMPLIANCE, DENIED_INTENT, details);
    }
  }

  lemma DecideAccounts(c: Engine, inp: Inputs, s: RunState, index: nat, a: Analysis)
    requires index < |inp.frames| && Accounted(s) && Decide(c, inp, s, index, a).Some?
    ensures Accounted(Decide(c, inp, s, index, a).value)
      && Decide(c, inp, s, index, a).value.observations == s.observations
  {
    var time := inp.frames[index].candle.closeTime;
    var supplied := ResponseAt(inp.responses, time);
    if index + 1 < inp.config.warmupCandles {
    } else if supplied.None? {
      UncountedEmit(s, index, time, AI_REJECTION, MISSING, []);
    } else {
      match c.parse(supplied.value.rawJson) {
        case Unparsable(details) => RejectionAccounts(s, index, time, AI_REJECTION, INVALID, details);
        case Parsed(advice) =>
          var risk := c.assess(advice, a.snapshot).value;
          UncountedEmit(s, index, time, AI_RESPONSE, Advised(advice.action), []);
          var s0 := Emit(s, index, time, AI_RESPONSE, Advised(advice.action), []);
          UncountedEmit(s0, index, time, RISK, Verdict(risk.approved), []);
          var s1 := Emit(s0, index, time, RISK, Verdict(risk.approved), []);
          var intent := IntentAt(inp.intents, time);
          if !advice.action.HOLD? {
            if intent.None? || !IntentMatches(intent.value, advice.action) {
              RejectionAccounts(s1, index, time, ORDER_COMPLIANCE, DENIED_INTENT, []);
            } else {
              ProposeAccounts(c, inp, s1, index, intent.value, risk);
            }
          }
      }
    }
  }

  lemma StepAccounts(c: Engine, inp: Inputs, s: RunState, index: nat)
    requires index < |inp.frames| && Accounted(s) && Step(c, inp, s, index).Some?
    ensures Accounted(Step(c, inp, s, index).value)
    ensures |Step(c, inp, s, index).value.observations| == |s.observations| + 1
  {
    ObserveAccounts(inp, s, index);
    var s1 := Observe(inp, s, index).value;
    ExecuteAccounts(c, inp, s1, index);
    var s2 := ExecutePending(c, inp, s1, index).value;
    var time := inp.frames[index].candle.closeTime;
    var a := c.analyze(Candles(inp.frames[..index + 1]), time).value;
    AnalyzedAccounts(s2, index, time, a);
    DecideAccounts(c, inp, Analyzed(s2, index, time, a), index, a);
  }

  // ----- what one candle adds to the journal

  predicate IsExecution(e: ReplayEvent) {
    e.eventType.PAPER_EXECUTION?
  }

  predicate IsApproval(e: ReplayEvent) {
    e.eventType.ORDER_COMPLIANCE? && e.status.APPROVED?
  }

  /** `events` grows to `more` by events of candle `index`; they contain an execution, or an approval, exactly
      as stated. */
  ghost predicate Adds(events: seq<ReplayEvent>, more: seq<ReplayEvent>, index: int, execution: bool, approval: bool) {
    && events <= more
    && (forall k :: |events| <= k < |more| ==> more[k].candle == index)
    && (execution <==> exists k :: |events| <= k < |more| && IsExecution(more[k]))
    && (approval <==> exists k :: |events| <= k < |more| && IsApproval(more[k]))
  }

  lemma AddsNothing(events: seq<ReplayEvent>, index: int)
    ensures Adds(events, events, index, false, false)
  {
  }

  lemma EmitAdds(s: RunState, index: int, time: Moment, kind: EventType, status: EventStatus,
                 details: seq<(string, string)>)
    ensures Adds(s.events, Emit(s, index, time, kind, status, details).events, index,
                 kind.PAPER_EXECUTION?, kind.ORDER_COMPLIANCE? && status.APPROVED?)
  {
    var more := Emit(s, index, time, kind, status, details).events;
    assert more[|s.events|].eventType == kind && more[|s.events|].status == status;
  }

  lemma AddsThen(a: seq<ReplayEvent>, b: seq<ReplayEvent>, d: seq<ReplayEvent>, index: int, e1: bool, a1: bool,
                 e2: bool, a2: bool)
    requires Adds(a, b, index, e1, a1) && Adds(b, d, index, e2, a2)
    ensures Adds(a, d, index, e1 || e2, a1 || a2)
  {
    assert forall k :: 0 <= k < |b| ==> b[k] == d[k];
  }

  lemma ExecuteAdds(c: Engine, inp: Inputs, s: RunState, index: nat)
    requires index < |inp.frames| && ExecutePending(c, inp, s, index).Some?
    ensures var s' := ExecutePending(c, inp, s, index).value;
      Adds(s.events, s'.events, index, s.pending.Some?, false) && s'.pending.None?
  {
    if s.pending.Some? {
      var order := c.decodeOrder(s.pending.value.orderJson).value;
      var decision := c.decodeDecision(s.pending.value.decisionJson).value;
      var frame := inp.frames[index];
      var sim := Simulate(c.market, s.portfolio, order, decision, QuoteOf(frame), s.paperJournal, s.curve).value;
      EmitAdds(s, index, frame.candle.closeTime, PAPER_EXECUTION, ExecutionStatus(sim.status), []);
    } else {
      AddsNothing(s.events, index);
    }
  }

  lemma AnalyzedAdds(s: RunState, index: nat, time: Moment, a: Analysis)
    ensures Adds(s.events, Analyzed(s, index, time, a).events, index, false, false)
  {
    var s1 := Emit(s, index, time, INDICATORS, BUILT, []);
    var s2 := Emit(s1, index, time, STRATEGY, Advised(a.score), []);
    EmitAdds(s, index, time, INDICATORS, BUILT, []);
    EmitAdds(s1, index, time, STRATEGY, Advised(a.score), []);
    EmitAdds(s2, index, time, PROMPT, BUILT, a.promptDetails);
    AddsThen(s.events, s1.events, s2.events, index, false, false, false, false);
    AddsThen(s.events, s2.events, Analyzed(s, index, time, a).events, index, false, false, false, false);
  }

  lemma ProposeAdds(c: Engine, inp: Inputs, s: RunState, index: nat, i: Intent, risk: Risk)
    requires index < |inp.frames| && Propose(c, inp, s, index, i, risk).Some?
    ensures var s' := Propose(c, inp, s, index, i, risk).value;
      Adds(s.events, s'.events, index, false, s'.pending.Some?)
  {
    var time := inp.frames[index].candle.closeTime;
    var gfv := GfvDecision(inp, s, i, time);
    var s1 := AfterGfv(s, index, time, gfv);
    if gfv.Some? {
      EmitAdds(s, index, time, GFV, Verdict(gfv.value.approved), []);
    } else {
      AddsNothing(s.events, index);
    }
    var d := c.comply(ProposalOf(i, time), s1.portfolio, s1.filled, inp.frames[index].marketState, gfv, risk).value;
    EmitAdds(s1, index, time, ORDER_COMPLIANCE, Verdict(d.approved), []);
    AddsThen(s.events, s1.events, Propose(c, inp, s, index, i, risk).value.events, index, false, false, false,
             d.approved);
  }

  lemma DecideAdds(c: Engine, inp: Inputs, s: RunState, index: nat, a: Analysis)
    requires index < |inp.frames| && s.pending.None? && Decide(c, inp, s, index, a).Some?
    ensures var s' := Decide(c, inp, s, index, a).value; Adds(s.events, s'.events, index, false, s'.pending.Some?)
  {
    var time := inp.frames[index].candle.closeTime;
    var supplied := ResponseAt(inp.responses, time);
    if index + 1 < inp.config.warmupCandles {
      AddsNothing(s.events, index);
    } else if supplied.None? {
      EmitAdds(s, index, time, AI_REJECTION, MISSING, []);
    } else {
      match c.parse(supplied.value.rawJson) {
        case Unparsable(details) => EmitAdds(s, index, time, AI_REJECTION, INVALID, details);
        case Parsed(advice) =>
          var risk := c.assess(advice, a.snapshot).value;
          var s0 := Emit(s, index, time, AI_RESPONSE, Advised(advice.action), []);
          var s1 := Emit(s0, index, time, RISK, Verdict(risk.approved), []);
          EmitAdds(s, index, time, AI_RESPONSE, Advised(advice.action), []);
          EmitAdds(s0, index, time, RISK, Verdict(risk.approved), []);
          AddsThen(s.events, s0.events, s1.events, index, false, false, false, false);
          var intent := IntentAt(inp.intents, time);
          var s' := Decide(c, inp, s, index, a).value;
          if !advice.action.HOLD? {
            if intent.None? || !IntentMatches(intent.value, advice.action) {
              EmitAdds(s1, index, time, ORDER_COMPLIANCE, DENIED_INTENT, []);
            } else {
              ProposeAdds(c, inp, s1, index, intent.value, risk);
            }
            AddsThen(s.events, s1.events, s'.events, index, false, false, false, s'.pending.Some?);
          }
      }
    }
  }

  /** A candle records an execution exactly when an order was pending before it, and leaves one pending exactly
      when it records an approval. */
  lemma StepAdds(c: Engine, inp: Inputs, s: RunState, index: nat)
    requires index < |inp.frames| && Step(c, inp, s, index).Some?
    ensures var s' := Step(c, inp, s, index).value;
      Adds(s.events, s'.events, index, s.pending.Some?, s'.pending.Some?)
  {
    var o := ObservationOf(inp.frames[index]);
    var s1 := Observe(inp, s, index).value;
    EmitAdds(s.(observations := SortObservations(s.observations + [o])), index, o.time, CANDLE, PROCESSED, []);
    ExecuteAdds(c, inp, s1, index);
    var s2 := ExecutePending(c, inp, s1, index).value;
    AddsThen(s.events, s1.events, s2.events, index, false, false, s.pending.Some?, false);
    var time := inp.frames[index].candle.closeTime;
    var a := c.analyze(Candles(inp.frames[..index + 1]), time).value;
    var s3 := Analyzed(s2, index, time, a);
    AnalyzedAdds(s2, index, time, a);
    AddsThen(s.events, s2.events, s3.events, index, s.pending.Some?, false, false, false);
    DecideAdds(c, inp, s3, index, a);
    var s' := Step(c, inp, s, index).value;
    AddsThen(s.events, s3.events, s'.events, index, s.pending.Some?, false, false, s'.pending.Some?);
  }

  // ----- approvals and executions pair up

  ghost predicate ExecutedAt(events: seq<ReplayEvent>, candle: int) {
    exists k :: 0 <= k < |events| && events[k].candle == candle && IsExecution(events[k])
  }

  ghost predicate ApprovedAt(events: seq<ReplayEvent>, candle: int) {
    exists k :: 0 <= k < |events| && events[k].candle == candle && IsApproval(events[k])
  }

  /** Candle `i` executed an order exactly when candle `i - 1` approved one; an order is pending exactly when
      the last candle approved one. */
  ghost predicate Paired(s: RunState, n: nat) {
    && (forall k :: 0 <= k < |s.events| ==> 0 <= s.events[k].candle < n)
    && (forall i {:trigger ExecutedAt(s.events, i)} {:trigger ApprovedAt(s.events, i - 1)} :: 0 <= i < n ==>
          (ExecutedAt(s.events, i) <==> ApprovedAt(s.events, i - 1)))
    && (s.pending.Some? <==> ApprovedAt(s.events, n - 1))
  }

  lemma AddsAt(events: seq<ReplayEvent>, more: seq<ReplayEvent>, n: nat, execution: bool, approval: bool, i: int)
    requires Adds(events, more, n, execution, approval) && forall k :: 0 <= k < |events| ==> 0 <= events[k].candle < n
    ensures ExecutedAt(more, i) <==> if i == n then execution else ExecutedAt(events, i)
    ensures ApprovedAt(more, i) <==> if i == n then approval else ApprovedAt(events, i)
  {
    assert forall k :: 0 <= k < |events| ==> more[k] == events[k];
  }

  lemma PairedStep(s: RunState, s': RunState, n: nat)
    requires Paired(s, n) && Adds(s.events, s'.events, n, s.pending.Some?, s'.pending.Some?)
    ensures Paired(s', n + 1)
  {
    forall i | 0 <= i < n + 1 ensures ExecutedAt(s'.events, i) <==> ApprovedAt(s'.events, i - 1) {
      AddsAt(s.events, s'.events, n, s.pending.Some?, s'.pending.Some?, i);
      AddsAt(s.events, s'.events, n, s.pending.Some?, s'.pending.Some?, i - 1);
    }
    AddsAt(s.events, s'.events, n, s.pending.Some?, s'.pending.Some?, n);
    assert forall k :: 0 <= k < |s.events| ==> s'.events[k] == s.events[k];
  }

  /** Everything the journal promises about a run that has reached candle `n`. */
  ghost predicate JournalInv(s: RunState, n: nat) {
    Accounted(s) && |s.observations| == n && Paired(s, n)
  }

  ghost function JournalAccounted(): (RunState, nat) -> bool {
    (s: RunState, n: nat) => JournalInv(s, n)
  }

  lemma StepKeepsJournal(c: Engine, inp: Inputs, s: RunState, index: nat)
    ensures KeepsAt(StepOf(c, inp), JournalAccounted(), s, index)
  {
    if JournalInv(s, index) && index < |inp.frames| && Step(c, inp, s, index).Some? {
      StepAccounts(c, inp, s, index);
      StepAdds(c, inp, s, index);
      PairedStep(s, Step(c, inp, s, index).value, index);
    }
  }

  lemma RunKeepsJournal(c: Engine, inp: Inputs, s: RunState, first: nat, stop: nat)
    requires first <= stop && JournalInv(s, first) && Iterate(StepOf(c, inp), s, first, stop).Some?
    ensures JournalInv(Iterate(StepOf(c, inp), s, first, stop).value, stop)
  {
    forall x, i: nat ensures KeepsAt(StepOf(c, inp), JournalAccounted(), x, i) {
      StepKeepsJournal(c, inp, x, i);
    }
    IterateKeeps(StepOf(c, inp), JournalAccounted(), s, first, stop);
  }

  /** In every checkpoint that a fresh run reaches, the journal accounts for counters, histories, observations
      and the pairing of approvals with next-candle executions. */
  lemma JournalAccountsForRun(c: Engine, inp: Inputs, stop: int)
    requires RunUntil(c, inp, None, stop).Some?
    ensures JournalInv(RunUntil(c, inp, None, stop).value.run, stop)
  {
    var s := Initial(inp).value;
    assert JournalInv(s, 0);
    RunKeepsJournal(c, inp, s, 0, stop);
  }
}
