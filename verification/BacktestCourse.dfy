/** What one candle of the replay engine does, from the inputs and the collaborators' answers: the course of its
    decision, the order that it leaves, the events that it records and the counters that it moves. */
module BacktestCourse {
  import opened Backtest
  import opened PaperTrading
  import opened PurchaseLots
  import opened Text
  import opened Wrappers
  import GoodFaith

  // ----- what is supplied for a time

  /** The last response of this time, or that there is none. */
  ghost predicate IsResponseAt(responses: seq<SuppliedResponse>, t: Moment, r: Option<SuppliedResponse>) {
    match r
    case None => forall k :: 0 <= k < |responses| ==> responses[k].candleTime.instant != t.instant
    case Some(x) =>
      exists k :: 0 <= k < |responses| && responses[k] == x && x.candleTime.instant == t.instant
                  && forall l :: k < l < |responses| ==> responses[l].candleTime.instant != t.instant
  }

  ghost predicate IsIntentAt(intents: seq<Intent>, t: Moment, i: Option<Intent>) {
    match i
    case None => forall k :: 0 <= k < |intents| ==> intents[k].candleTime.instant != t.instant
    case Some(x) =>
      exists k :: 0 <= k < |intents| && intents[k] == x && x.candleTime.instant == t.instant
                  && forall l :: k < l < |intents| ==> intents[l].candleTime.instant != t.instant
  }

  lemma {:induction false} ResponsePosition(responses: seq<SuppliedResponse>, t: Moment) returns (k: int)
    ensures -1 <= k < |responses| && ResponseAt(responses, t) == if k < 0 then None else Some(responses[k])
    ensures k >= 0 ==> responses[k].candleTime.instant == t.instant
    ensures forall l :: k < l < |responses| ==> responses[l].candleTime.instant != t.instant
    decreases |responses|
  {
    k := |responses| - 1;
    if responses != [] && responses[k].candleTime.instant != t.instant {
      k := ResponsePosition(responses[..|responses| - 1], t);
    }
  }

  lemma ResponseIsLast(responses: seq<SuppliedResponse>, t: Moment)
    ensures IsResponseAt(responses, t, ResponseAt(responses, t))
  {
    var k := ResponsePosition(responses, t);
  }

  lemma {:induction false} IntentPosition(intents: seq<Intent>, t: Moment) returns (k: int)
    ensures -1 <= k < |intents| && IntentAt(intents, t) == if k < 0 then None else Some(intents[k])
    ensures k >= 0 ==> intents[k].candleTime.instant == t.instant
    ensures forall l :: k < l < |intents| ==> intents[l].candleTime.instant != t.instant
    decreases |intents|
  {
    k := |intents| - 1;
    if intents != [] && intents[k].candleTime.instant != t.instant {
      k := IntentPosition(intents[..|intents| - 1], t);
    }
  }

  lemma IntentIsLast(intents: seq<Intent>, t: Moment)
    ensures IsIntentAt(intents, t, IntentAt(intents, t))
  {
    var k := IntentPosition(intents, t);
  }

  lemma ResponseIsOne(responses: seq<SuppliedResponse>, t: Moment, a: Option<SuppliedResponse>,
                      b: Option<SuppliedResponse>)
    requires IsResponseAt(responses, t, a) && IsResponseAt(responses, t, b)
    ensures a == b
  {
  }

  lemma IntentIsOne(intents: seq<Intent>, t: Moment, a: Option<Intent>, b: Option<Intent>)
    requires IsIntentAt(intents, t, a) && IsIntentAt(intents, t, b)
    ensures a == b
  {
  }

  // ----- the course of a decision

  datatype Course =
    | WarmingUp
    | Unanswered
    | Unparsed(details: seq<(string, string)>)
    | Holding(advice: Advice, risk: Risk)
    | Unmatched(advice: Advice, risk: Risk)
    | Ordered(advice: Advice, risk: Risk, intent: Intent, decision: Compliance)

  /** What a decision rests on: the portfolio, the purchase lots, and the number of fills so far. */
  datatype Standing = Standing(portfolio: Portfolio, lots: seq<Lot>, filled: int)

  function StandingOf(s: RunState): Standing {
    Standing(s.portfolio, s.lots, s.filled)
  }

  /** The advice that the supplied response parses to, and the risk assessment of it. */
  ghost predicate Advises(c: Engine, inp: Inputs, index: nat, a: Analysis, advice: Advice, risk: Risk)
    requires index < |inp.frames|
  {
    exists r :: IsResponseAt(inp.responses, inp.frames[index].candle.closeTime, Some(r))
                && c.parse(r.rawJson) == Parsed(advice) && c.assess(advice, a.snapshot) == Some(risk)
  }

  /** The supplied intent is for a named symbol and on the side that is advised. */
  ghost predicate Matches(inp: Inputs, index: nat, action: Action, i: Intent)
    requires index < |inp.frames|
  {
    && IsIntentAt(inp.intents, inp.frames[index].candle.closeTime, Some(i)) && Normalize(i.symbol) != ""
    && ((action.BUY_ACTION? && i.side.BUY?) || (action.SELL_ACTION? && i.side.SELL?))
  }

  function OrderOf(i: Intent, time: Moment): Proposal {
    Proposal(i.requestId, i.symbol, i.side, i.orderType, i.quantity, i.limitPrice, i.stopPrice, i.session, time)
  }

  /** Only the sales of a cash account are checked for good faith, on the lots held. */
  function GoodFaithOf(inp: Inputs, st: Standing, i: Intent, time: Moment): Option<GoodFaith.Decision> {
    if i.side.BUY? || inp.config.account.MARGIN? then None
    else Some(GoodFaith.EvaluateSell(i.symbol, i.quantity, Some(GoodFaith.CASH), Some(time), st.lots))
  }

  /** When a decision takes a course. */
  ghost predicate Takes(c: Engine, inp: Inputs, st: Standing, index: nat, a: Analysis, course: Course)
    requires index < |inp.frames|
  {
    var frame, time := inp.frames[index], inp.frames[index].candle.closeTime;
    && (course.WarmingUp? <==> index + 1 < inp.config.warmupCandles)
    && match course
       case WarmingUp => true
       case Unanswered => IsResponseAt(inp.responses, time, None)
       case Unparsed(details) =>
         exists r :: IsResponseAt(inp.responses, time, Some(r)) && c.parse(r.rawJson) == Unparsable(details)
       case Holding(advice, risk) => Advises(c, inp, index, a, advice, risk) && advice.action.HOLD?
       case Unmatched(advice, risk) =>
         && Advises(c, inp, index, a, advice, risk) && !advice.action.HOLD?
         && !exists i :: Matches(inp, index, advice.action, i)
       case Ordered(advice, risk, i, d) =>
         && Advises(c, inp, index, a, advice, risk) && Matches(inp, index, advice.action, i)
         && c.comply(OrderOf(i, time), st.portfolio, st.filled, frame.marketState, GoodFaithOf(inp, st, i, time), risk)
              == Some(d)
  }

  /** No decision takes two courses. */
  lemma CourseIsOne(c: Engine, inp: Inputs, st: Standing, index: nat, a: Analysis, x: Course, y: Course)
    requires index < |inp.frames| && Takes(c, inp, st, index, a, x) && Takes(c, inp, st, index, a, y)
    ensures x == y
  {
    var time := inp.frames[index].candle.closeTime;
    if !x.WarmingUp? {
      ResponseIsLast(inp.responses, time);
      IntentIsLast(inp.intents, time);
      forall r | IsResponseAt(inp.responses, time, r) ensures r == ResponseAt(inp.responses, time) {
        ResponseIsOne(inp.responses, time, r, ResponseAt(inp.responses, time));
      }
      forall i | IsIntentAt(inp.intents, time, i) ensures i == IntentAt(inp.intents, time) {
        IntentIsOne(inp.intents, time, i, IntentAt(inp.intents, time));
      }
    }
  }

  // ----- what it leaves

  function AdviceStatus(action: Action): EventStatus {
    if action.BUY_ACTION? then ADVISE_BUY else if action.SELL_ACTION? then ADVISE_SELL else ADVISE_HOLD
  }

  function Approval(ok: bool): EventStatus {
    if ok then APPROVED else DENIED
  }

  /** An event as recorded, but for its number, candle and time. */
  datatype Notice = Notice(eventType: EventType, status: EventStatus, details: seq<(string, string)>)

  function Plain(t: EventType, status: EventStatus): Notice {
    Notice(t, status, [])
  }

  function Assessed(advice: Advice, risk: Risk): seq<Notice> {
    [Plain(AI_RESPONSE, AdviceStatus(advice.action)), Plain(RISK, Approval(risk.approved))]
  }

  /** The events of a course, in order. */
  function Told(inp: Inputs, st: Standing, time: Moment, course: Course): seq<Notice> {
    match course
    case WarmingUp => []
    case Unanswered => [Plain(AI_REJECTION, MISSING)]
    case Unparsed(details) => [Notice(AI_REJECTION, INVALID, details)]
    case Holding(advice, risk) => Assessed(advice, risk)
    case Unmatched(advice, risk) =>
      Assessed(advice, risk) + [Plain(ORDER_COMPLIANCE, DENIED_INTENT)]
    case Ordered(advice, risk, i, d) =>
      var gfv := GoodFaithOf(inp, st, i, time);
      Assessed(advice, risk)
      + (if gfv.Some? then [Plain(GFV, Approval(gfv.value.approved))] else [])
      + [Plain(ORDER_COMPLIANCE, Approval(d.approved))]
  }

  predicate IsTold(e: ReplayEvent, sequence: int, index: int, time: Moment, told: Notice) {
    && e.sequence == sequence && e.candle == index && e.time == time
    && e.eventType == told.eventType && e.status == told.status && e.details == told.details
  }

  ghost predicate Tells(before: seq<ReplayEvent>, after: seq<ReplayEvent>, index: int, time: Moment,
                        told: seq<Notice>)
  {
    && before <= after && |after| == |before| + |told|
    && forall i {:trigger told[i]} :: 0 <= i < |told| ==>
         IsTold(after[|before| + i], |before| + i + 1, index, time, told[i])
  }

  /** The order that a course leaves for the next candle: the intent's own, if it was approved. */
  function Leaves(c: Engine, time: Moment, course: Course, before: Option<Pending>): Option<Pending> {
    if !course.Ordered? then before
    else if course.decision.approved
    then Some(Pending(c.encodeOrder(OrderOf(course.intent, time)), c.encodeDecision(course.decision)))
    else None
  }

  function One(b: bool): int {
    if b then 1 else 0
  }

  /** The counters that a course moves: a proposal for each order, and one of approved or rejected; a rejection also
      for a response that does not parse and an intent that does not match. */
  ghost predicate Counts(s: RunState, s': RunState, course: Course) {
    && s'.proposals == s.proposals + One(course.Ordered?)
    && s'.approved == s.approved + One(course.Ordered? && course.decision.approved)
    && s'.rejected == s.rejected
         + One(course.Unparsed? || course.Unmatched? || (course.Ordered? && !course.decision.approved))
  }

  ghost predicate SameBooks(s: RunState, s': RunState) {
    && s'.portfolio == s.portfolio && s'.lots == s.lots && s'.curve == s.curve && s'.history == s.history
    && s'.paperJournal == s.paperJournal && s'.filled == s.filled && s'.observations == s.observations
  }

  ghost predicate DecidedAs(c: Engine, inp: Inputs, s: RunState, s': RunState, index: nat, course: Course)
    requires index < |inp.frames|
  {
    var time := inp.frames[index].candle.closeTime;
    && s'.next == index + 1 && SameBooks(s, s') && Counts(s, s', course)
    && s'.pending == Leaves(c, time, course, s.pending)
    && Tells(s.events, s'.events, index, time, Told(inp, StandingOf(s), time, course))
  }

  lemma AfterOne(s: RunState, index: int, time: Moment, t: EventType, status: EventStatus,
                 details: seq<(string, string)>)
    ensures Tells(s.events, Emit(s, index, time, t, status, details).events, index, time, [Notice(t, status, details)])
  {
  }

  lemma TellsThen(a: seq<ReplayEvent>, b: seq<ReplayEvent>, d: seq<ReplayEvent>, index: int, time: Moment,
                  x: seq<Notice>, y: seq<Notice>)
    requires Tells(a, b, index, time, x) && Tells(b, d, index, time, y)
    ensures Tells(a, d, index, time, x + y)
  {
    var told := x + y;
    forall i | 0 <= i < |told| ensures IsTold(d[|a| + i], |a| + i + 1, index, time, told[i]) {
      if i < |x| {
        assert IsTold(b[|a| + i], |a| + i + 1, index, time, x[i]);
      } else {
        var k := i - |x|;
        assert IsTold(d[|b| + k], |b| + k + 1, index, time, y[k]);
      }
    }
  }

  /** From the risk assessment on: holding, no match, or the order. */
  lemma ProposeFollows(c: Engine, inp: Inputs, s: RunState, index: nat, advice: Advice, risk: Risk, i: Intent)
    returns (d: Compliance)
    requires index < |inp.frames| && Propose(c, inp, s, index, i, risk).Some?
    ensures var time := inp.frames[index].candle.closeTime;
      c.comply(OrderOf(i, time), s.portfolio, s.filled, inp.frames[index].marketState,
               GoodFaithOf(inp, StandingOf(s), i, time), risk) == Some(d)
    ensures var s', time := Propose(c, inp, s, index, i, risk).value, inp.frames[index].candle.closeTime;
      var course, gfv := Ordered(advice, risk, i, d), GoodFaithOf(inp, StandingOf(s), i, time);
      && s'.next == index + 1 && SameBooks(s, s') && Counts(s, s', course)
      && s'.pending == Leaves(c, time, course, s.pending)
      && Tells(s.events, s'.events, index, time,
               (if gfv.Some? then [Plain(GFV, Approval(gfv.value.approved))] else [])
               + [Plain(ORDER_COMPLIANCE, Approval(d.approved))])
  {
    var time := inp.frames[index].candle.closeTime;
    var gfv := GfvDecision(inp, s, i, time);
    var s1 := AfterGfv(s, index, time, gfv);
    d := c.comply(ProposalOf(i, time), s1.portfolio, s1.filled, inp.frames[index].marketState, gfv, risk).value;
    var told := if gfv.Some? then [Plain(GFV, Approval(gfv.value.approved))] else [];
    assert Tells(s.events, s1.events, index, time, told);
    var s' := Propose(c, inp, s, index, i, risk).value;
    assert Tells(s1.events, s'.events, index, time, [Plain(ORDER_COMPLIANCE, Approval(d.approved))]);
    TellsThen(s.events, s1.events, s'.events, index, time, told, [Plain(ORDER_COMPLIANCE, Approval(d.approved))]);
  }

  function AfterRisk(s: RunState, index: nat, time: Moment, advice: Advice, risk: Risk): RunState {
    Emit(Emit(s, index, time, AI_RESPONSE, Advised(advice.action), []), index, time, RISK, Verdict(risk.approved), [])
  }

  lemma AfterRiskTells(s: RunState, index: nat, time: Moment, advice: Advice, risk: Risk)
    ensures Tells(s.events, AfterRisk(s, index, time, advice, risk).events, index, time, Assessed(advice, risk))
  {
  }

  lemma OrderedFollows(c: Engine, inp: Inputs, s: RunState, index: nat, advice: Advice, risk: Risk, i: Intent)
    returns (d: Compliance)
    requires index < |inp.frames|
    requires
      Propose(c, inp, AfterRisk(s, index, inp.frames[index].candle.closeTime, advice, risk), index, i, risk).Some?
    ensures var frame, time := inp.frames[index], inp.frames[index].candle.closeTime;
      c.comply(OrderOf(i, time), s.portfolio, s.filled, frame.marketState,
               GoodFaithOf(inp, StandingOf(s), i, time), risk)
        == Some(d)
    ensures var s1 := AfterRisk(s, index, inp.frames[index].candle.closeTime, advice, risk);
      DecidedAs(c, inp, s, Propose(c, inp, s1, index, i, risk).value, index, Ordered(advice, risk, i, d))
  {
    var time := inp.frames[index].candle.closeTime;
    var s1 := AfterRisk(s, index, time, advice, risk);
    AfterRiskTells(s, index, time, advice, risk);
    d := ProposeFollows(c, inp, s1, index, advice, risk, i);
    var gfv := GoodFaithOf(inp, StandingOf(s), i, time);
    var more := (if gfv.Some? then [Plain(GFV, Approval(gfv.value.approved))] else [])
      + [Plain(ORDER_COMPLIANCE, Approval(d.approved))];
    TellsThen(s.events, s1.events, Propose(c, inp, s1, index, i, risk).value.events, index, time,
              Assessed(advice, risk), more);
    assert Assessed(advice, risk) + more == Told(inp, StandingOf(s), time, Ordered(advice, risk, i, d));
  }

  lemma UnmatchedFollows(c: Engine, inp: Inputs, s: RunState, s1: RunState, index: nat, advice: Advice, risk: Risk)
    requires index < |inp.frames| && s1 == AfterRisk(s, index, inp.frames[index].candle.closeTime, advice, risk)
    ensures var s2 := Emit(s1, index, inp.frames[index].candle.closeTime, ORDER_COMPLIANCE, DENIED_INTENT, []);
      DecidedAs(c, inp, s, s2.(next := index + 1, rejected := s1.rejected + 1), index, Unmatched(advice, risk))
  {
    var time := inp.frames[index].candle.closeTime;
    AfterRiskTells(s, index, time, advice, risk);
    AfterOne(s1, index, time, ORDER_COMPLIANCE, DENIED_INTENT, []);
    TellsThen(s.events, s1.events, Emit(s1, index, time, ORDER_COMPLIANCE, DENIED_INTENT, []).events, index, time,
              Assessed(advice, risk), [Plain(ORDER_COMPLIANCE, DENIED_INTENT)]);
  }

  /** The course from the risk assessment on, with what it leaves. */
  lemma AdvisedFollows(c: Engine, inp: Inputs, s: RunState, index: nat, a: Analysis, advice: Advice, risk: Risk)
    returns (course: Course)
    requires index < |inp.frames| && Decide(c, inp, s, index, a).Some? && index + 1 >= inp.config.warmupCandles
    requires var r := ResponseAt(inp.responses, inp.frames[index].candle.closeTime);
      r.Some? && c.parse(r.value.rawJson) == Parsed(advice) && c.assess(advice, a.snapshot) == Some(risk)
    requires Advises(c, inp, index, a, advice, risk)
    ensures Takes(c, inp, StandingOf(s), index, a, course)
    ensures DecidedAs(c, inp, s, Decide(c, inp, s, index, a).value, index, course)
  {
    var time := inp.frames[index].candle.closeTime;
    var s', s1 := Decide(c, inp, s, index, a).value, AfterRisk(s, index, time, advice, risk);
    AfterRiskTells(s, index, time, advice, risk);
    var intent := IntentAt(inp.intents, time);
    if advice.action.HOLD? {
      course := Holding(advice, risk);
    } else if intent.None? || !IntentMatches(intent.value, advice.action) {
      course := Unmatched(advice, risk);
      UnmatchedIntent(inp, index, advice.action);
      UnmatchedFollows(c, inp, s, s1, index, advice, risk);
    } else {
      IntentIsLast(inp.intents, time);
      assert Matches(inp, index, advice.action, intent.value);
      var d := OrderedFollows(c, inp, s, index, advice, risk, intent.value);
      course := Ordered(advice, risk, intent.value, d);
    }
  }

  lemma UnmatchedIntent(inp: Inputs, index: nat, action: Action)
    requires index < |inp.frames| && !action.HOLD?
    requires var i := IntentAt(inp.intents, inp.frames[index].candle.closeTime);
      i.None? || !IntentMatches(i.value, action)
    ensures !exists i :: Matches(inp, index, action, i)
  {
    var time := inp.frames[index].candle.closeTime;
    IntentIsLast(inp.intents, time);
    forall i ensures !Matches(inp, index, action, i) {
      if Matches(inp, index, action, i) {
        IntentIsOne(inp.intents, time, Some(i), IntentAt(inp.intents, time));
      }
    }
  }

  /** Every decision takes a course and leaves what belongs to it. */
  lemma DecisionFollows(c: Engine, inp: Inputs, s: RunState, index: nat, a: Analysis) returns (course: Course)
    requires index < |inp.frames| && Decide(c, inp, s, index, a).Some?
    ensures Takes(c, inp, StandingOf(s), index, a, course)
    ensures DecidedAs(c, inp, s, Decide(c, inp, s, index, a).value, index, course)
  {
    var time := inp.frames[index].candle.closeTime;
    ResponseIsLast(inp.responses, time);
    var r := ResponseAt(inp.responses, time);
    if index + 1 < inp.config.warmupCandles {
      course := WarmingUp;
    } else if r.None? {
      course := Unanswered;
    } else {
      match c.parse(r.value.rawJson) {
        case Unparsable(details) => course := Unparsed(details);
        case Parsed(advice) =>
          var risk := c.assess(advice, a.snapshot).value;
          assert Advises(c, inp, index, a, advice, risk);
          course := AdvisedFollows(c, inp, s, index, a, advice, risk);
      }
    }
  }

  // ----- the whole candle

  /** The candles up to and including this one. */
  ghost predicate IsHistory(inp: Inputs, index: nat, candles: seq<Candle>)
    requires index < |inp.frames|
  {
    |candles| == index + 1 && forall i :: 0 <= i <= index ==> candles[i] == inp.frames[i].candle
  }

  ghost predicate Analyzes(c: Engine, inp: Inputs, index: nat, a: Analysis)
    requires index < |inp.frames|
  {
    exists candles ::
      IsHistory(inp, index, candles) && c.analyze(candles, inp.frames[index].candle.closeTime) == Some(a)
  }

  /** The simulation of the order that was waiting, against this candle's quote at its opening; none without one. What
      it bought must make a purchase lot. */
  ghost predicate IsSimulated(c: Engine, inp: Inputs, s: RunState, index: nat, sim: Option<Simulation>)
    requires index < |inp.frames|
  {
    var f := inp.frames[index];
    if s.pending.None? then sim == None
    else
      var order, decision := c.decodeOrder(s.pending.value.orderJson), c.decodeDecision(s.pending.value.decisionJson);
      && order.Some? && decision.Some? && sim.Some?
      && sim == Simulate(c.market, s.portfolio, order.value, decision.value,
                         Quote(f.candle.symbol, f.bid, f.ask, f.last, f.candle.openTime), s.paperJournal, s.curve)
      && (sim.value.fill.Some? && sim.value.fill.value.side == "BUY" ==>
            !IsBlank(sim.value.fill.value.symbol) && sim.value.fill.value.quantity > 0.0)
  }

  /** The books after an execution: those of the simulation, and one more portfolio and fill if it was filled. */
  ghost predicate Books(s: RunState, s': RunState, sim: Option<Simulation>) {
    if sim.None? then
      && s'.portfolio == s.portfolio && s'.paperJournal == s.paperJournal && s'.curve == s.curve
      && s'.history == s.history && s'.lots == s.lots && s'.filled == s.filled
    else
      && s'.portfolio == sim.value.portfolio && s'.paperJournal == sim.value.journal && s'.curve == sim.value.curve
      && s'.history == s.history + (if sim.value.status.FILLED? then [sim.value.portfolio] else [])
      && s'.lots == Updated(s.lots, sim.value.fill) && s'.filled == s.filled + One(sim.value.status.FILLED?)
  }

  function ExecutionTold(sim: Option<Simulation>): seq<Notice> {
    if sim.None? then []
    else if sim.value.status.FILLED? then [Plain(PAPER_EXECUTION, WAS_FILLED)]
    else if sim.value.status.REJECTED? then [Plain(PAPER_EXECUTION, DENIED)]
    else [Plain(PAPER_EXECUTION, WAS_NOT_FILLED)]
  }

  function AnalysisTold(a: Analysis): seq<Notice> {
    [Plain(INDICATORS, BUILT), Plain(STRATEGY, AdviceStatus(a.score)), Notice(PROMPT, BUILT, a.promptDetails)]
  }

  /** All that a candle tells, in order: the candle, the execution of a waiting order, the analysis, the decision. */
  function CandleTold(sim: Option<Simulation>, a: Analysis, decided: seq<Notice>)
    : seq<Notice>
  {
    [Plain(CANDLE, PROCESSED)] + ExecutionTold(sim)
    + AnalysisTold(a) + decided
  }

  /** What a candle makes of the run: the books of the execution, then the course of the decision on them. */
  ghost predicate StepsAs(c: Engine, inp: Inputs, s: RunState, s': RunState, index: nat, sim: Option<Simulation>,
                          a: Analysis, course: Course)
    requires index < |inp.frames|
  {
    var time := inp.frames[index].candle.closeTime;
    && IsSimulated(c, inp, s, index, sim) && Books(s, s', sim) && Analyzes(c, inp, index, a)
    && Takes(c, inp, StandingOf(s'), index, a, course)
    && s'.next == index + 1 && s'.pending == Leaves(c, time, course, None)
    && s'.proposals == s.proposals + One(course.Ordered?)
    && s'.approved == s.approved + One(course.Ordered? && course.decision.approved)
    && s'.rejected == s.rejected + One(sim.Some? && sim.value.status.REJECTED?)
         + One(course.Unparsed? || course.Unmatched? || (course.Ordered? && !course.decision.approved))
    && Tells(s.events, s'.events, index, time, CandleTold(sim, a, Told(inp, StandingOf(s'), time, course)))
  }

  lemma ExecutionFollows(c: Engine, inp: Inputs, s: RunState, index: nat) returns (sim: Option<Simulation>)
    requires index < |inp.frames| && ExecutePending(c, inp, s, index).Some?
    ensures var s', time := ExecutePending(c, inp, s, index).value, inp.frames[index].candle.closeTime;
      && IsSimulated(c, inp, s, index, sim) && Books(s, s', sim) && s'.pending == None
      && s'.proposals == s.proposals && s'.approved == s.approved && s'.observations == s.observations
      && s'.rejected == s.rejected + One(sim.Some? && sim.value.status.REJECTED?)
      && Tells(s.events, s'.events, index, time, ExecutionTold(sim))
  {
    sim := None;
    if s.pending.Some? {
      var order := c.decodeOrder(s.pending.value.orderJson).value;
      var decision := c.decodeDecision(s.pending.value.decisionJson).value;
      sim := Simulate(c.market, s.portfolio, order, decision, QuoteOf(inp.frames[index]), s.paperJournal, s.curve);
    }
  }

  lemma AnalysisTells(s: RunState, index: nat, time: Moment, a: Analysis)
    ensures var s' := Analyzed(s, index, time, a);
      s' == s.(events := s'.events) && Tells(s.events, s'.events, index, time, AnalysisTold(a))
  {
  }

  /** The analysis and the decision on it. */
  lemma AnalysisFollows(c: Engine, inp: Inputs, s: RunState, index: nat, a: Analysis) returns (course: Course)
    requires index < |inp.frames|
    requires Decide(c, inp, Analyzed(s, index, inp.frames[index].candle.closeTime, a), index, a).Some?
    ensures Takes(c, inp, StandingOf(s), index, a, course)
    ensures var time := inp.frames[index].candle.closeTime;
      var s' := Decide(c, inp, Analyzed(s, index, time, a), index, a).value;
      && s'.next == index + 1 && SameBooks(s, s') && Counts(s, s', course)
      && s'.pending == Leaves(c, time, course, s.pending)
      && Tells(s.events, s'.events, index, time, AnalysisTold(a) + Told(inp, StandingOf(s), time, course))
  {
    var time := inp.frames[index].candle.closeTime;
    var s1 := Analyzed(s, index, time, a);
    AnalysisTells(s, index, time, a);
    course := DecisionFollows(c, inp, s1, index, a);
    TellsThen(s.events, s1.events, Decide(c, inp, s1, index, a).value.events, index, time,
              AnalysisTold(a), Told(inp, StandingOf(s), time, course));
  }

  lemma AllTold(e0: seq<ReplayEvent>, e1: seq<ReplayEvent>, e2: seq<ReplayEvent>, e3: seq<ReplayEvent>,
                index: int, time: Moment, sim: Option<Simulation>, a: Analysis, decided: seq<Notice>)
    requires Tells(e0, e1, index, time, [Plain(CANDLE, PROCESSED)]) && Tells(e1, e2, index, time, ExecutionTold(sim))
    requires Tells(e2, e3, index, time, AnalysisTold(a) + decided)
    ensures Tells(e0, e3, index, time, CandleTold(sim, a, decided))
  {
    var first := [Plain(CANDLE, PROCESSED)];
    TellsThen(e0, e1, e2, index, time, first, ExecutionTold(sim));
    TellsThen(e0, e2, e3, index, time, first + ExecutionTold(sim), AnalysisTold(a) + decided);
    assert first + ExecutionTold(sim) + (AnalysisTold(a) + decided) == CandleTold(sim, a, decided);
  }

  lemma ObservationFollows(inp: Inputs, s: RunState, index: nat)
    requires index < |inp.frames| && Observe(inp, s, index).Some?
    ensures var s' := Observe(inp, s, index).value;
      && s' == s.(events := s'.events, observations := s'.observations)
      && Tells(s.events, s'.events, index, inp.frames[index].candle.closeTime, [Plain(CANDLE, PROCESSED)])
  {
  }

  /** The stages of a candle that goes through. */
  lemma StepStages(c: Engine, inp: Inputs, s: RunState, index: nat) returns (s1: RunState, s2: RunState, a: Analysis)
    requires index < |inp.frames| && Step(c, inp, s, index).Some?
    ensures Observe(inp, s, index) == Some(s1) && ExecutePending(c, inp, s1, index) == Some(s2)
    ensures Analyzes(c, inp, index, a)
    ensures Step(c, inp, s, index)
         == Decide(c, inp, Analyzed(s2, index, inp.frames[index].candle.closeTime, a), index, a)
  {
    s1 := Observe(inp, s, index).value;
    s2 := ExecutePending(c, inp, s1, index).value;
    var candles := Candles(inp.frames[..index + 1]);
    a := c.analyze(candles, inp.frames[index].candle.closeTime).value;
    assert IsHistory(inp, index, candles);
  }

  /** Neither events nor observations matter to the execution. */
  lemma SameExecution(c: Engine, inp: Inputs, s: RunState, s1: RunState, s2: RunState, index: nat,
                      sim: Option<Simulation>)
    requires index < |inp.frames| && s1 == s.(events := s1.events, observations := s1.observations)
    requires IsSimulated(c, inp, s1, index, sim) && Books(s1, s2, sim)
    ensures IsSimulated(c, inp, s, index, sim) && Books(s, s2, sim)
  {
  }

  lemma StagesMakeStep(c: Engine, inp: Inputs, s: RunState, s2: RunState, s': RunState, index: nat,
                       sim: Option<Simulation>, a: Analysis, course: Course)
    requires index < |inp.frames| && Analyzes(c, inp, index, a)
    requires IsSimulated(c, inp, s, index, sim) && Books(s, s2, sim) && s2.pending == None
      && s2.proposals == s.proposals && s2.approved == s.approved
      && s2.rejected == s.rejected + One(sim.Some? && sim.value.status.REJECTED?)
    requires Takes(c, inp, StandingOf(s2), index, a, course)
      && s'.next == index + 1 && SameBooks(s2, s') && Counts(s2, s', course)
    requires var time := inp.frames[index].candle.closeTime;
      && s'.pending == Leaves(c, time, course, s2.pending)
      && Tells(s.events, s'.events, index, time, CandleTold(sim, a, Told(inp, StandingOf(s2), time, course)))
    ensures StepsAs(c, inp, s, s', index, sim, a, course)
  {
    assert Books(s, s', sim) && StandingOf(s') == StandingOf(s2);
  }

  /** Every candle that goes through simulates the waiting order and takes a course, and leaves what belongs to them. */
  lemma StepFollows(c: Engine, inp: Inputs, s: RunState, index: nat)
    returns (sim: Option<Simulation>, a: Analysis, course: Course)
    requires index < |inp.frames| && Step(c, inp, s, index).Some?
    ensures StepsAs(c, inp, s, Step(c, inp, s, index).value, index, sim, a, course)
  {
    var time, s1, s2 := inp.frames[index].candle.closeTime, s, s;
    s1, s2, a := StepStages(c, inp, s, index);
    ObservationFollows(inp, s, index);
    sim := ExecutionFollows(c, inp, s1, index);
    course := AnalysisFollows(c, inp, s2, index, a);
    var s' := Step(c, inp, s, index).value;
    AllTold(s.events, s1.events, s2.events, s'.events, index, time, sim, a,
            Told(inp, StandingOf(s2), time, course));
    SameExecution(c, inp, s, s1, s2, index, sim);
    StagesMakeStep(c, inp, s, s2, s', index, sim, a, course);
  }

  // ----- when a candle goes through

  /** A decision goes through exactly if some course is open to it: one is missing only where the risk assessment or
      order compliance raises. */
  lemma DecisionGoesThrough(c: Engine, inp: Inputs, s: RunState, index: nat, a: Analysis, course: Course)
    requires index < |inp.frames| && Takes(c, inp, StandingOf(s), index, a, course)
    ensures Decide(c, inp, s, index, a).Some?
  {
    var time := inp.frames[index].candle.closeTime;
    ResponseIsLast(inp.responses, time);
    IntentIsLast(inp.intents, time);
    forall r | IsResponseAt(inp.responses, time, r) ensures r == ResponseAt(inp.responses, time) {
      ResponseIsOne(inp.responses, time, r, ResponseAt(inp.responses, time));
    }
    forall i | IsIntentAt(inp.intents, time, i) ensures i == IntentAt(inp.intents, time) {
      IntentIsOne(inp.intents, time, i, IntentAt(inp.intents, time));
    }
    if course.Unmatched? {
      var intent := IntentAt(inp.intents, time);
      assert intent.Some? && IntentMatches(intent.value, course.advice.action)
        ==> Matches(inp, index, course.advice.action, intent.value);
    }
  }

  /** What the decision rests on once a waiting order has been executed. */
  function StandingAfter(s: RunState, sim: Option<Simulation>): Standing {
    if sim.None? then StandingOf(s)
    else Standing(sim.value.portfolio, Updated(s.lots, sim.value.fill), s.filled + One(sim.value.status.FILLED?))
  }

  ghost predicate Proceeds(c: Engine, inp: Inputs, s: RunState, index: nat, sim: Option<Simulation>, a: Analysis,
                           course: Course)
    requires index < |inp.frames|
  {
    && IsSimulated(c, inp, s, index, sim) && Analyzes(c, inp, index, a)
    && Takes(c, inp, StandingAfter(s, sim), index, a, course)
  }

  lemma ExecutionGoesThrough(c: Engine, inp: Inputs, s: RunState, s1: RunState, index: nat, sim: Option<Simulation>)
    requires index < |inp.frames| && s1 == s.(events := s1.events, observations := s1.observations)
    requires IsSimulated(c, inp, s, index, sim)
    ensures ExecutePending(c, inp, s1, index).Some?
      && StandingOf(ExecutePending(c, inp, s1, index).value) == StandingAfter(s, sim)
  {
  }

  lemma AnalysisGoesThrough(c: Engine, inp: Inputs, index: nat, a: Analysis)
    requires index < |inp.frames| && Analyzes(c, inp, index, a)
    ensures c.analyze(Candles(inp.frames[..index + 1]), inp.frames[index].candle.closeTime) == Some(a)
  {
    var candles :|
      IsHistory(inp, index, candles) && c.analyze(candles, inp.frames[index].candle.closeTime) == Some(a);
    HistoryIsOne(inp, index, candles, Candles(inp.frames[..index + 1]));
  }

  lemma StagesGoThrough(c: Engine, inp: Inputs, s: RunState, s1: RunState, s2: RunState, index: nat, a: Analysis)
    requires index < |inp.frames| && Observe(inp, s, index) == Some(s1)
    requires ExecutePending(c, inp, s1, index) == Some(s2)
    requires c.analyze(Candles(inp.frames[..index + 1]), inp.frames[index].candle.closeTime) == Some(a)
    requires Decide(c, inp, Analyzed(s2, index, inp.frames[index].candle.closeTime, a), index, a).Some?
    ensures Step(c, inp, s, index).Some?
  {
  }

  lemma StepGoesThrough(c: Engine, inp: Inputs, s: RunState, index: nat, sim: Option<Simulation>, a: Analysis,
                        course: Course)
    requires index < |inp.frames| && Observe(inp, s, index).Some?
    requires Proceeds(c, inp, s, index, sim, a, course)
    ensures Step(c, inp, s, index).Some?
  {
    var time := inp.frames[index].candle.closeTime;
    var s1 := Observe(inp, s, index).value;
    ObservationFollows(inp, s, index);
    ExecutionGoesThrough(c, inp, s, s1, index, sim);
    var s2 := ExecutePending(c, inp, s1, index).value;
    AnalysisGoesThrough(c, inp, index, a);
    AnalysisTells(s2, index, time, a);
    DecisionGoesThrough(c, inp, Analyzed(s2, index, time, a), index, a, course);
    StagesGoThrough(c, inp, s, s1, s2, index, a);
  }

  /** A candle goes through if and only if its observation is in order, a waiting order can be simulated, and the
      analysis leads to a course; what it does is then what `StepFollows` says. */
  lemma StepIff(c: Engine, inp: Inputs, s: RunState, index: nat)
    requires index < |inp.frames|
    ensures Step(c, inp, s, index).Some? <==>
      && ObservationOk(ObservationOf(inp.frames[index]))
      && exists sim, a, course :: Proceeds(c, inp, s, index, sim, a, course)
  {
    if Step(c, inp, s, index).Some? {
      var sim, a, course := StepFollows(c, inp, s, index);
      assert StandingAfter(s, sim) == StandingOf(Step(c, inp, s, index).value);
      assert Proceeds(c, inp, s, index, sim, a, course);
    } else if ObservationOk(ObservationOf(inp.frames[index])) {
      forall sim, a, course ensures !Proceeds(c, inp, s, index, sim, a, course) {
        if Proceeds(c, inp, s, index, sim, a, course) {
          StepGoesThrough(c, inp, s, index, sim, a, course);
        }
      }
    }
  }

  lemma HistoryIsOne(inp: Inputs, index: nat, x: seq<Candle>, y: seq<Candle>)
    requires index < |inp.frames| && IsHistory(inp, index, x) && IsHistory(inp, index, y)
    ensures x == y
  {
  }

  /** A candle leaves an order exactly if it is past the warm-up, the supplied response parses to the advice to buy or
      sell, the supplied intent matches, and order compliance approves the intent's own order. */
  ghost predicate LeavesOrder(c: Engine, inp: Inputs, st: Standing, index: nat)
    requires index < |inp.frames|
  {
    exists a, course ::
      && Analyzes(c, inp, index, a) && Takes(c, inp, st, index, a, course)
      && course.Ordered? && course.decision.approved
  }

  lemma StepLeavesOrderIff(c: Engine, inp: Inputs, s: RunState, index: nat)
    requires index < |inp.frames| && Step(c, inp, s, index).Some?
    ensures var s' := Step(c, inp, s, index).value;
      s'.pending.Some? <==> LeavesOrder(c, inp, StandingOf(s'), index)
  {
    var s' := Step(c, inp, s, index).value;
    var sim, a, course := StepFollows(c, inp, s, index);
    forall b, other | Analyzes(c, inp, index, b) && Takes(c, inp, StandingOf(s'), index, b, other)
      ensures other == course
    {
      var x :| IsHistory(inp, index, x) && c.analyze(x, inp.frames[index].candle.closeTime) == Some(a);
      var y :| IsHistory(inp, index, y) && c.analyze(y, inp.frames[index].candle.closeTime) == Some(b);
      HistoryIsOne(inp, index, x, y);
      CourseIsOne(c, inp, StandingOf(s'), index, a, course, other);
    }
  }
}
