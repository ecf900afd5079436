/** The deterministic replay engine: one candle at a time, from a checkpoint. */
module Backtest {
  import opened Wrappers
  import opened Text
  import opened PurchaseLots
  import opened OrderTerms
  import opened PaperTrading
  import opened Iteration
  import opened Numbers
  import GoodFaith

  /** `zoned` says that both timestamps carry a time zone. */
  datatype Candle = Candle(
    symbol: string, openTime: Moment, closeTime: Moment, zoned: bool,
    open: real, high: real, low: real, close: real, volume: real)

  datatype MarketState = MarketState(symbol: string, status: Option<string>, rest: string)

  /** A decimal that nothing has checked yet: it may be an infinity or not a number. */
  datatype Unchecked = Finite(amount: real) | NotFinite

  datatype Frame = Frame(
    candle: Candle, marketState: MarketState, bid: real, ask: real, last: real,
    session: Option<string>, slippage: Option<Unchecked>, volatility: Option<string>, trend: Option<string>)

  datatype SuppliedResponse = SuppliedResponse(candleTime: Moment, rawJson: string)

  datatype Intent = Intent(
    candleTime: Moment, requestId: string, symbol: string, side: Side, orderType: OrderType, quantity: real,
    limitPrice: Option<real>, stopPrice: Option<real>, session: string)

  datatype Config = Config(account: GoodFaith.AccountType, initialCash: real, warmupCandles: int, schemaVersion: int,
                           rest: string)

  datatype Inputs = Inputs(frames: seq<Frame>, responses: seq<SuppliedResponse>, intents: seq<Intent>, config: Config)

  datatype Fingerprints = Fingerprints(dataset: string, responses: string, intents: string, config: string)

  datatype EventType =
    | CANDLE | INDICATORS | STRATEGY | PROMPT | AI_RESPONSE | AI_REJECTION | RISK | GFV | ORDER_COMPLIANCE
      | PAPER_EXECUTION

  datatype EventStatus =
    | PROCESSED | BUILT | ADVISE_BUY | ADVISE_SELL | ADVISE_HOLD | MISSING | INVALID
    | APPROVED | DENIED | DENIED_INTENT | WAS_FILLED | WAS_NOT_FILLED

  datatype ReplayEvent = ReplayEvent(
    sequence: int, candle: int, time: Moment, eventType: EventType, status: EventStatus, details: seq<(string, string)>)

  datatype Observation = Observation(
    time: Moment, symbol: string, open: real, high: real, low: real, close: real, volume: real, bid: real, ask: real,
    session: Option<string>, marketStatus: Option<string>, slippage: Option<Unchecked>,
    volatility: Option<string>, trend: Option<string>)

  /** An approved order waiting for the next candle, as the two JSON texts that the checkpoint keeps. */
  datatype Pending = Pending(orderJson: string, decisionJson: string)

  datatype RunState = RunState(
    next: int, portfolio: Portfolio, paperJournal: seq<JournalEvent>, events: seq<ReplayEvent>, curve: seq<EquityPoint>,
    history: seq<Portfolio>, lots: seq<Lot>, pending: Option<Pending>,
    proposals: int, approved: int, rejected: int, filled: int, observations: seq<Observation>)

  datatype Checkpoint = Checkpoint(schemaVersion: int, fingerprints: Fingerprints, run: RunState)

  datatype Action = BUY_ACTION | SELL_ACTION | HOLD

  datatype Analysis = Analysis(snapshot: string, score: Action, promptDetails: seq<(string, string)>)
  datatype Advice = Advice(action: Action, text: string)
  datatype Parsed = Parsed(advice: Advice) | Unparsable(details: seq<(string, string)>)
  datatype Risk = Risk(approved: bool, text: string)

  /** The deterministic collaborators of the engine; None stands for a raised exception. */
  datatype Engine = Engine(
    analyze: (seq<Candle>, Moment) -> Option<Analysis>,
    parse: string -> Parsed,
    assess: (Advice, string) -> Option<Risk>,
    comply: (Proposal, Portfolio, int, MarketState, Option<GoodFaith.Decision>, Risk) -> Option<Compliance>,
    market: Market,
    encodeOrder: Proposal -> string, decodeOrder: string -> Option<Proposal>,
    encodeDecision: Compliance -> string, decodeDecision: string -> Option<Compliance>,
    fingerprints: Inputs -> Fingerprints)
  {
    /** The JSON text of an order or decision that reads at all reads as what was written. (Exact amounts
        outnumber texts, so not every one can be asked to read.) */
    ghost predicate Faithful() {
      && (forall p {:trigger encodeOrder(p)} ::
            decodeOrder(encodeOrder(p)).Some? ==> decodeOrder(encodeOrder(p)).value == p)
      && (forall d {:trigger encodeDecision(d)} ::
            decodeDecision(encodeDecision(d)).Some? ==> decodeDecision(encodeDecision(d)).value == d)
    }
  }

  // ----- validate_frames

  predicate ValidFrame(symbol: string, previousClose: Option<Moment>, f: Frame) {
    var c := f.candle;
    && symbol != "" && Normalize(c.symbol) == symbol && c.zoned
    && c.openTime.instant < c.closeTime.instant
    && (previousClose.Some? ==> previousClose.value.instant < c.openTime.instant)
    && c.open > 0.0 && c.high > 0.0 && c.low > 0.0 && c.close > 0.0 && c.volume >= 0.0
    && c.high >= c.open && c.high >= c.close && c.low <= c.open && c.low <= c.close
    && f.bid > 0.0 && f.ask > 0.0 && f.last > 0.0
    && Normalize(f.marketState.symbol) == symbol
  }

  function PreviousClose(frames: seq<Frame>, i: nat): Option<Moment>
    requires i <= |frames|
  {
    if i == 0 then None else Some(frames[i - 1].candle.closeTime)
  }

  predicate ValidFrameAt(symbol: string, frames: seq<Frame>, i: nat)
    requires i < |frames|
  {
    ValidFrame(symbol, PreviousClose(frames, i), frames[i])
  }

  predicate AllValid(symbol: string, frames: seq<Frame>) {
    forall i {:trigger ValidFrameAt(symbol, frames, i)} :: 0 <= i < |frames| ==> ValidFrameAt(symbol, frames, i)
  }

  predicate ValidFrames(frames: seq<Frame>) {
    frames != [] && AllValid(Normalize(frames[0].candle.symbol), frames)
  }

  /** The validation loop; false is its ValueError. */
  method ValidateFrames(frames: seq<Frame>) returns (ok: bool)
    ensures ok <==> ValidFrames(frames)
  {
    if frames == [] {
      return false;
    }
    ok := ValidateAll(Normalize(frames[0].candle.symbol), frames);
  }

  method ValidateAll(symbol: string, frames: seq<Frame>) returns (ok: bool)
    ensures ok <==> AllValid(symbol, frames)
  {
    var previous: Option<Moment> := None;
    for i := 0 to |frames|
      invariant previous == PreviousClose(frames, i)
      invariant forall j {:trigger ValidFrameAt(symbol, frames, j)} :: 0 <= j < i ==> ValidFrameAt(symbol, frames, j)
    {
      var frame, candle := frames[i], frames[i].candle;
      assert ValidFrameAt(symbol, frames, i) == ValidFrame(symbol, previous, frame);
      if symbol == "" || Normalize(candle.symbol) != symbol || !candle.zoned {
        return false;
      }
      if candle.openTime.instant >= candle.closeTime.instant
         || (previous.Some? && candle.openTime.instant <= previous.value.instant) {
        return false;
      }
      if candle.open <= 0.0 || candle.high <= 0.0 || candle.low <= 0.0 || candle.close <= 0.0 || candle.volume < 0.0 {
        return false;
      }
      if candle.high < Max(candle.open, candle.close) || candle.low > Min(candle.open, candle.close) {
        return false;
      }
      if frame.bid <= 0.0 || frame.ask <= 0.0 || frame.last <= 0.0 || Normalize(frame.marketState.symbol) != symbol {
        return false;
      }
      previous := Some(frames[i].candle.closeTime);
    }
    return true;
  }

  /** Valid candles follow one another in time. */
  lemma {:induction false} CloseTimesIncrease(symbol: string, frames: seq<Frame>, i: nat, j: nat)
    requires AllValid(symbol, frames) && i < j < |frames|
    ensures frames[i].candle.closeTime.instant < frames[j].candle.closeTime.instant
    decreases j
  {
    assert ValidFrameAt(symbol, frames, j);
    if i < j - 1 {
      CloseTimesIncrease(symbol, frames, i, j - 1);
    }
  }

  // ----- supplied data by timestamp

  /** Building a dictionary keeps the last item of each timestamp. */
  function ResponseAt(responses: seq<SuppliedResponse>, t: Moment): Option<SuppliedResponse> {
    if responses == [] then None
    else
      var last := responses[|responses| - 1];
      if last.candleTime.instant == t.instant then Some(last) else ResponseAt(responses[..|responses| - 1], t)
  }

  function IntentAt(intents: seq<Intent>, t: Moment): Option<Intent> {
    if intents == [] then None
    else
      var last := intents[|intents| - 1];
      if last.candleTime.instant == t.instant then Some(last) else IntentAt(intents[..|intents| - 1], t)
  }

  lemma {:induction false} IntentIsSupplied(intents: seq<Intent>, t: Moment)
    requires IntentAt(intents, t).Some?
    ensures IntentAt(intents, t).value in intents
    decreases |intents|
  {
    if intents[|intents| - 1].candleTime.instant != t.instant {
      IntentIsSupplied(intents[..|intents| - 1], t);
    }
  }

  // ----- observations

  predicate LabelOk(tag: Option<string>) {
    tag.Some? ==> !IsBlank(tag.value)
  }

  predicate SlippageOk(slippage: Option<Unchecked>) {
    slippage.Some? ==> slippage.value.Finite?
  }

  /** The checks of the observation's constructor. */
  predicate ObservationOk(o: Observation) {
    && !IsBlank(o.symbol) && o.open > 0.0 && o.high > 0.0 && o.low > 0.0 && o.close > 0.0 && o.volume >= 0.0
    && o.high >= o.open && o.high >= o.low && o.high >= o.close && o.low <= o.open && o.low <= o.close
    && 0.0 < o.bid <= o.ask
    && SlippageOk(o.slippage)
    && LabelOk(o.session) && LabelOk(o.marketStatus) && LabelOk(o.volatility) && LabelOk(o.trend)
  }

  function ObservationOf(f: Frame): Observation {
    Observation(f.candle.closeTime, Upper(f.candle.symbol), f.candle.open, f.candle.high, f.candle.low, f.candle.close,
                f.candle.volume, f.bid, f.ask, f.session, f.marketState.status, f.slippage, f.volatility, f.trend)
  }

  predicate NotAfter(a: Observation, b: Observation) {
    a.time.instant < b.time.instant
      || (a.time.instant == b.time.instant && (a.symbol == b.symbol || Before(a.symbol, b.symbol)))
  }

  function PlaceObservation(o: Observation, sorted: seq<Observation>): seq<Observation> {
    if sorted == [] || NotAfter(o, sorted[0]) then [o] + sorted else [sorted[0]] + PlaceObservation(o, sorted[1..])
  }

  /** Stable sort by timestamp and symbol. */
  function SortObservations(os: seq<Observation>): seq<Observation> {
    if os == [] then [] else PlaceObservation(os[0], SortObservations(os[1..]))
  }

  ghost predicate Ascending(os: seq<Observation>) {
    forall i, j :: 0 <= i < j < |os| ==> os[i].time.instant < os[j].time.instant
  }

  /** Sorting leaves observations alone that are already in time order. */
  lemma {:induction false} SortIsIdentity(os: seq<Observation>)
    requires Ascending(os)
    ensures SortObservations(os) == os
    decreases |os|
  {
    if os != [] {
      SortIsIdentity(os[1..]);
    }
  }

  // ----- one candle

  function Emit(s: RunState, index: int, time: Moment, t: EventType, status: EventStatus,
                details: seq<(string, string)>): RunState
  {
    s.(events := s.events + [ReplayEvent(|s.events| + 1, index, time, t, status, details)])
  }

  function Observe(inp: Inputs, s: RunState, index: nat): Option<RunState>
    requires index < |inp.frames|
  {
    var o := ObservationOf(inp.frames[index]);
    if !ObservationOk(o) then None
    else Some(Emit(s.(observations := SortObservations(s.observations + [o])), index, o.time, CANDLE, PROCESSED, []))
  }

  function ExecutionStatus(s: Status): EventStatus {
    match s case FILLED => WAS_FILLED case REJECTED => DENIED case NOT_FILLED => WAS_NOT_FILLED
  }

  /** `PurchaseLot` refuses a blank symbol and a quantity that is not positive. */
  predicate LotConstructible(fill: Option<Fill>) {
    fill.Some? && fill.value.side == "BUY" ==> !IsBlank(fill.value.symbol) && fill.value.quantity > 0.0
  }

  function Executed(s: RunState, index: int, time: Moment, sim: Simulation): RunState {
    var s' := s.(portfolio := sim.portfolio, paperJournal := sim.journal, curve := sim.curve,
                 history := if sim.status.FILLED? then s.history + [sim.portfolio] else s.history,
                 lots := Updated(s.lots, sim.fill), pending := None,
                 filled := s.filled + (if sim.status.FILLED? then 1 else 0),
                 rejected := s.rejected + if sim.status.REJECTED? then 1 else 0);
    Emit(s', index, time, PAPER_EXECUTION, ExecutionStatus(sim.status), [])
  }

  function QuoteOf(f: Frame): Quote {
    Quote(f.candle.symbol, f.bid, f.ask, f.last, f.candle.openTime)
  }

  /** Simulates the order that the previous candle left pending against this candle's execution values. */
  function ExecutePending(c: Engine, inp: Inputs, s: RunState, index: nat): Option<RunState>
    requires index < |inp.frames|
  {
    if s.pending.None? then Some(s) else
    var order := c.decodeOrder(s.pending.value.orderJson);
    var decision := c.decodeDecision(s.pending.value.decisionJson);
    if order.None? || decision.None? then None else
    var frame := inp.frames[index];
    match Simulate(c.market, s.portfolio, order.value, decision.value, QuoteOf(frame), s.paperJournal, s.curve)
    case None => None
    case Some(sim) => if LotConstructible(sim.fill) then Some(Executed(s, index, frame.candle.closeTime, sim)) else None
  }

  function Candles(frames: seq<Frame>): seq<Candle> {
    seq(|frames|, i requires 0 <= i < |frames| => frames[i].candle)
  }

  function Advised(a: Action): EventStatus {
    match a case BUY_ACTION => ADVISE_BUY case SELL_ACTION => ADVISE_SELL case HOLD => ADVISE_HOLD
  }

  function Verdict(ok: bool): EventStatus {
    if ok then APPROVED else DENIED
  }

  function Analyzed(s: RunState, index: int, time: Moment, a: Analysis): RunState {
    Emit(Emit(Emit(s, index, time, INDICATORS, BUILT, []), index, time, STRATEGY, Advised(a.score), []),
         index, time, PROMPT, BUILT, a.promptDetails)
  }

  predicate IntentMatches(i: Intent, a: Action) {
    && Normalize(i.symbol) != ""
    && match a case BUY_ACTION => i.side.BUY? case SELL_ACTION => i.side.SELL? case HOLD => false
  }

  function ProposalOf(i: Intent, time: Moment): Proposal {
    Proposal(i.requestId, i.symbol, i.side, i.orderType, i.quantity, i.limitPrice, i.stopPrice, i.session, time)
  }

  function GfvDecision(inp: Inputs, s: RunState, i: Intent, time: Moment): Option<GoodFaith.Decision> {
    if i.side.SELL? && inp.config.account.CASH?
    then Some(GoodFaith.EvaluateSell(i.symbol, i.quantity, Some(inp.config.account), Some(time), s.lots)) else None
  }

  function AfterGfv(s: RunState, index: int, time: Moment, gfv: Option<GoodFaith.Decision>): RunState {
    if gfv.None? then s else Emit(s, index, time, GFV, Verdict(gfv.value.approved), [])
  }

  function Complied(c: Engine, s: RunState, index: int, time: Moment, proposal: Proposal, d: Compliance): RunState {
    var s' := s.(pending := if d.approved then Some(Pending(c.encodeOrder(proposal), c.encodeDecision(d))) else None,
                 proposals := s.proposals + 1, approved := s.approved + (if d.approved then 1 else 0),
                 rejected := s.rejected + (if d.approved then 0 else 1), next := index + 1);
    Emit(s', index, time, ORDER_COMPLIANCE, Verdict(d.approved), [])
  }

  /** A matching intent becomes a proposal, which goes through GFV and order compliance. */
  function Propose(c: Engine, inp: Inputs, s: RunState, index: nat, i: Intent, risk: Risk): Option<RunState>
    requires index < |inp.frames|
  {
    var time := inp.frames[index].candle.closeTime;
    var proposal := ProposalOf(i, time);
    var gfv := GfvDecision(inp, s, i, time);
    var s1 := AfterGfv(s, index, time, gfv);
    match c.comply(proposal, s1.portfolio, s1.filled, inp.frames[index].marketState, gfv, risk)
    case None => None
    case Some(d) => Some(Complied(c, s1, index, time, proposal, d))
  }

  /** From the supplied response to the end of the candle. */
  function Decide(c: Engine, inp: Inputs, s: RunState, index: nat, a: Analysis): Option<RunState>
    requires index < |inp.frames|
  {
    var time := inp.frames[index].candle.closeTime;
    if index + 1 < inp.config.warmupCandles then Some(s.(next := index + 1)) else
    match ResponseAt(inp.responses, time)
    case None => Some(Emit(s, index, time, AI_REJECTION, MISSING, []).(next := index + 1))
    case Some(supplied) =>
      match c.parse(supplied.rawJson)
      case Unparsable(details) =>
        Some(Emit(s, index, time, AI_REJECTION, INVALID, details).(next := index + 1, rejected := s.rejected + 1))
      case Parsed(advice) =>
        match c.assess(advice, a.snapshot)
        case None => None
        case Some(risk) =>
          var s0 := Emit(s, index, time, AI_RESPONSE, Advised(advice.action), []);
          var s1 := Emit(s0, index, time, RISK, Verdict(risk.approved), []);
          var intent := IntentAt(inp.intents, time);
          if advice.action.HOLD? then Some(s1.(next := index + 1))
          else if intent.None? || !IntentMatches(intent.value, advice.action) then
            var s2 := Emit(s1, index, time, ORDER_COMPLIANCE, DENIED_INTENT, []);
            Some(s2.(next := index + 1, rejected := s1.rejected + 1))
          else Propose(c, inp, s1, index, intent.value, risk)
  }

  function Step(c: Engine, inp: Inputs, s: RunState, index: nat): Option<RunState>
    requires index < |inp.frames|
  {
    match Observe(inp, s, index)
    case None => None
    case Some(s1) =>
      match ExecutePending(c, inp, s1, index)
      case None => None
      case Some(s2) =>
        var time := inp.frames[index].candle.closeTime;
        match c.analyze(Candles(inp.frames[..index + 1]), time)
        case None => None
        case Some(a) => Decide(c, inp, Analyzed(s2, index, time, a), index, a)
  }

  // ----- the run

  function StepOf(c: Engine, inp: Inputs): (RunState, nat) -> Option<RunState> {
    (s: RunState, index: nat) => if index < |inp.frames| then Step(c, inp, s, index) else None
  }

  function Initial(inp: Inputs): Option<RunState>
    requires inp.frames != []
  {
    match CreatePortfolio(inp.config.initialCash, inp.frames[0].candle.openTime)
    case None => None
    case Some(f) => Some(RunState(0, f, [], [], [EquityPoint(f.time, f.equity)], [f], [], None, 0, 0, 0, 0, []))
  }

  /** Where a run starts: fresh, or from a checkpoint whose schema and fingerprints match these inputs. */
  function Start(c: Engine, inp: Inputs, checkpoint: Option<Checkpoint>): Option<RunState>
    requires inp.frames != []
  {
    match checkpoint
    case None => Initial(inp)
    case Some(cp) =>
      if cp.schemaVersion == inp.config.schemaVersion && cp.fingerprints == c.fingerprints(inp) then Some(cp.run)
        else None
  }

  /** `run_until`; None is any exception. A supplied negative candle index is refused at once; the source
      raises for it in its loop, at index -1 at the latest, where `frames[:0]` leaves the indicators no candle. */
  function RunUntil(c: Engine, inp: Inputs, checkpoint: Option<Checkpoint>, stop: int): Option<Checkpoint> {
    if !ValidFrames(inp.frames) then None else
    match Start(c, inp, checkpoint)
    case None => None
    case Some(s) =>
      if !(0 <= stop <= |inp.frames|) || stop < s.next || s.next < 0 then None else
      match Iterate(StepOf(c, inp), s, s.next, stop)
      case None => None
      case Some(s') => Some(Checkpoint(inp.config.schemaVersion, c.fingerprints(inp), s'))
  }

  /** `run_backtest`, as far as its checkpoint: the run over all frames, whose metrics must exist. */
  function RunBacktest(c: Engine, inp: Inputs, checkpoint: Option<Checkpoint>): Option<Checkpoint> {
    match RunUntil(c, inp, checkpoint, |inp.frames|)
    case None => None
    case Some(final) =>
      if MetricsExist(c.market, final.run.paperJournal, final.run.curve) then Some(final) else None
  }

  /** The loop of the program. */
  method Run(c: Engine, inp: Inputs, checkpoint: Option<Checkpoint>, stop: int) returns (r: Option<Checkpoint>)
    ensures r == RunUntil(c, inp, checkpoint, stop)
  {
    var ok := ValidateFrames(inp.frames);
    if !ok {
      return None;
    }
    var started := Start(c, inp, checkpoint);
    if started.None? || !(0 <= stop <= |inp.frames|) || stop < started.value.next || started.value.next < 0 {
      return None;
    }
    var final := IterateLoop(StepOf(c, inp), started.value, started.value.next, stop);
    return if final.None? then None else Some(Checkpoint(inp.config.schemaVersion, c.fingerprints(inp), final.value));
  }
}
