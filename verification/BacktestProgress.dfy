/** Which runs of the replay engine go through: what stops one is a candle that its observation refuses, or an
    order of an account without money. */
module BacktestProgress {
  import opened Backtest
  import opened BacktestBooks
  import opened BacktestRuns
  import opened FillRule
  import opened Iteration
  import opened PaperTrading
  import opened PurchaseLots
  import opened Text
  import opened Wrappers
  import BacktestCourse

  // ----- what the observation asks beyond the validation of frames

  /** Conditions of the observation's constructor that the validation of frames does not check. */
  predicate Recordable(f: Frame) {
    && f.bid <= f.ask && SlippageOk(f.slippage)
    && LabelOk(f.session) && LabelOk(f.marketState.status) && LabelOk(f.volatility) && LabelOk(f.trend)
  }

  /** On valid frames the observation's constructor refuses exactly a bid above the ask, a slippage that is
      not finite, and blank labels. */
  lemma ObservedIffRecordable(inp: Inputs, s: RunState, index: nat)
    requires ValidFrames(inp.frames) && index < |inp.frames|
    ensures Observe(inp, s, index).Some? <==> Recordable(inp.frames[index])
  {
    var symbol := Normalize(inp.frames[0].candle.symbol);
    assert ValidFrameAt(symbol, inp.frames, index);
    NormalizedIsVisible(inp.frames[index].candle.symbol);
  }

  /** A candle of one instant, with every price at one except for the quote. */
  function OneFrame(bid: real, slippage: Unchecked, regime: string): Frame {
    Frame(Candle("F", Moment(0, 0), Moment(1, 0), true, 1.0, 1.0, 1.0, 1.0, 0.0), MarketState("F", None, ""),
          bid, 1.0, 1.0, None, Some(slippage), Some(regime), None)
  }

  function OnlyFrame(f: Frame, config: Config): Inputs {
    Inputs([f], [], [], config)
  }

  /** Three frames that pass the validation and stop every run: one with its bid above its ask, one whose
      observed slippage is not a number, one whose volatility regime is a form feed. */
  lemma ValidFramesThatStopEveryRun(c: Engine, config: Config, s: RunState, f: Frame)
    requires f == OneFrame(2.0, Finite(0.0), "LOW") || f == OneFrame(1.0, NotFinite, "LOW")
      || f == OneFrame(1.0, Finite(0.0), "\U{C}")
    ensures ValidFrames([f]) && Step(c, OnlyFrame(f, config), s, 0) == None
      && RunUntil(c, OnlyFrame(f, config), None, 1) == None
  {
    NormalizeLetter('F');
    StoppedByFrame(c, f, config, s);
  }

  lemma StoppedByFrame(c: Engine, f: Frame, config: Config, s: RunState)
    requires ValidFrames([f]) && !Recordable(f)
    ensures var inp := OnlyFrame(f, config); Step(c, inp, s, 0) == None && RunUntil(c, inp, None, 1) == None
  {
    var inp := OnlyFrame(f, config);
    ObservedIffRecordable(inp, s, 0);
    if Initial(inp).Some? {
      ObservedIffRecordable(inp, Initial(inp).value, 0);
    }
  }

  // ----- what a candle needs besides

  /** The indicators answer on every opening part of the candles, and risk and order compliance on whatever they are
      asked; decisions and supplied orders survive their JSON texts, the market prices by the fill rule, and amounts
      are written as numbers. */
  ghost predicate Collaborates(c: Engine, inp: Inputs) {
    && (forall n, t {:trigger c.analyze(Candles(inp.frames[..n]), t)} ::
          0 < n <= |inp.frames| ==> c.analyze(Candles(inp.frames[..n]), t).Some?)
    && (forall advice, snapshot :: c.assess(advice, snapshot).Some?)
    && (forall p, f, n, m, g, r :: c.comply(p, f, n, m, g, r).Some?)
    && (forall d :: Decided(c, d) ==> c.decodeDecision(c.encodeDecision(d)).Some?)
    && (forall i, t :: i in inp.intents ==> c.decodeOrder(c.encodeOrder(ProposalOf(i, t))).Some?)
    && (exists wording, maximumAge :: PricesByRule(c.market, wording, maximumAge))
    && c.market.WritesAmounts()
  }

  /** The instant up to which `n` candles have taken the run. */
  function Clock(inp: Inputs, n: nat): int
    requires n <= |inp.frames| && inp.frames != []
  {
    if n == 0 then inp.frames[0].candle.openTime.instant else inp.frames[n - 1].candle.closeTime.instant
  }

  predicate CurveOk(curve: seq<EquityPoint>, clock: int) {
    && curve != [] && curve[|curve| - 1].time.instant <= clock
    && forall i :: 0 <= i < |curve| ==> curve[i].equity >= 0.0
  }

  /** The waiting texts read, and the order was created when the last candle closed. */
  predicate PendingReads(c: Engine, pending: Option<Pending>, clock: int) {
    pending.Some? ==>
      && c.decodeDecision(pending.value.decisionJson).Some? && c.decodeOrder(pending.value.orderJson).Some?
      && c.decodeOrder(pending.value.orderJson).value.created.instant == clock
  }

  /** A state from which the next candle fails on nothing but its own observation, unless there is an order and
      never was money. */
  ghost predicate Ready(c: Engine, s: RunState, clock: int) {
    && BooksInv(c, s) && CurveOk(s.curve, clock) && PendingReads(c, s.pending, clock)
    && OutcomesRead(c.market, s.paperJournal)
  }

  lemma ApprovedIntentReads(c: Engine, inp: Inputs, pending: Pending, i: Intent, time: Moment)
    requires c.Faithful() && Collaborates(c, inp) && i in inp.intents && IsApprovedIntent(c, pending, i, time)
    ensures PendingReads(c, Some(pending), time.instant)
  {
    var d: Compliance :| d.approved && Decided(c, d) && pending.decisionJson == c.encodeDecision(d);
    assert c.decodeDecision(c.encodeDecision(d)).Some?;
    assert c.decodeOrder(c.encodeOrder(ProposalOf(i, time))).Some?;
  }

  /** A pending order is simulated exactly if the run began with money; its fill makes a valid lot and curve
      point. */
  lemma ExecutionSucceeds(c: Engine, inp: Inputs, s: RunState, index: nat)
    requires index < |inp.frames| && Collaborates(c, inp) && Ready(c, s, Clock(inp, index))
    requires Clock(inp, index) <= inp.frames[index].candle.openTime.instant
    ensures ExecutePending(c, inp, s, index).Some? <==> (s.pending.Some? ==> s.portfolio.initialCash > 0.0)
    ensures ExecutePending(c, inp, s, index).Some? ==>
      var s' := ExecutePending(c, inp, s, index).value;
      && CurveOk(s'.curve, inp.frames[index].candle.openTime.instant)
      && OutcomesRead(c.market, s'.paperJournal)
  {
    if s.pending.Some? {
      var order := c.decodeOrder(s.pending.value.orderJson).value;
      var decision := c.decodeDecision(s.pending.value.decisionJson).value;
      var quote := QuoteOf(inp.frames[index]);
      OrderSimulates(c, inp, s, order, decision, quote, Clock(inp, index));
      if s.portfolio.initialCash > 0.0 {
        CurveGrows(c, s, order, decision, quote, Clock(inp, index));
      }
    }
  }

  lemma FillsArePriced(c: Engine, inp: Inputs, order: Proposal, quote: Quote)
    requires Collaborates(c, inp)
    ensures var e := c.market.evaluateFill(order, quote); e.status.FILLED? <==> e.price.Some?
  {
    var wording, maximumAge :| PricesByRule(c.market, wording, maximumAge);
    FillsAtSideQuote(wording, maximumAge, order, quote);
  }

  /** What is ready of a state's curve, books and journal. */
  lemma ReadyFacts(c: Engine, inp: Inputs, s: RunState, clock: int)
    requires Collaborates(c, inp) && Ready(c, s, clock)
    ensures Balanced(s.portfolio) && c.market.WritesAmounts() && OutcomesRead(c.market, s.paperJournal)
    ensures s.curve != [] && (forall i :: 0 <= i < |s.curve| ==> s.curve[i].equity >= 0.0)
    ensures s.curve[0].equity > 0.0 <==> s.portfolio.initialCash > 0.0
    ensures s.curve[|s.curve| - 1].equity == s.portfolio.equity && s.curve[|s.curve| - 1].time.instant <= clock
  {
    EquityIsNonnegative(s.portfolio);
  }

  lemma SimulatesIff(m: Market, f: Portfolio, order: Proposal, decision: Compliance, quote: Quote,
                     journal: seq<JournalEvent>, curve: seq<EquityPoint>)
    requires Balanced(f) && m.WritesAmounts() && OutcomesRead(m, journal) && curve != []
    requires forall i :: 0 <= i < |curve| ==> curve[i].equity >= 0.0
    requires curve[|curve| - 1].equity == f.equity && curve[|curve| - 1].time.instant <= order.created.instant
    requires m.evaluateFill(order, quote).status.FILLED? <==> m.evaluateFill(order, quote).price.Some?
    ensures Simulate(m, f, order, decision, quote, journal, curve).Some? <==> curve[0].equity > 0.0
  {
    SimulationSucceeds(m, f, order, decision, quote, journal, curve);
  }

  lemma OrderSimulates(c: Engine, inp: Inputs, s: RunState, order: Proposal, decision: Compliance, quote: Quote,
                       clock: int)
    requires Collaborates(c, inp) && Ready(c, s, clock) && order.created.instant == clock
    ensures Simulate(c.market, s.portfolio, order, decision, quote, s.paperJournal, s.curve).Some?
      <==> s.portfolio.initialCash > 0.0
  {
    ReadyFacts(c, inp, s, clock);
    FillsArePriced(c, inp, order, quote);
    SimulatesIff(c.market, s.portfolio, order, decision, quote, s.paperJournal, s.curve);
  }

  lemma CurveGrows(c: Engine, s: RunState, order: Proposal, decision: Compliance, quote: Quote, clock: int)
    requires Ready(c, s, clock) && !IsBlank(Normalize(order.symbol)) && clock <= quote.time.instant
    requires Simulate(c.market, s.portfolio, order, decision, quote, s.paperJournal, s.curve).Some?
    ensures var sim := Simulate(c.market, s.portfolio, order, decision, quote, s.paperJournal, s.curve).value;
      && LotConstructible(sim.fill) && CurveOk(sim.curve, quote.time.instant) && OutcomesRead(c.market, sim.journal)
  {
    SimulatedBooks(c, s, order, decision, quote);
  }

  lemma DecisionSucceeds(c: Engine, inp: Inputs, s: RunState, index: nat, a: Analysis)
    requires index < |inp.frames| && Collaborates(c, inp)
    ensures Decide(c, inp, s, index, a).Some?
  {
  }

  /** Whether a candle goes through, and its curve and journal, from what its stages do. */
  lemma StageFacts(c: Engine, inp: Inputs, s: RunState, index: nat)
    requires Collaborates(c, inp) && ValidFrames(inp.frames) && index < |inp.frames|
    requires Ready(c, s, Clock(inp, index)) && Recordable(inp.frames[index])
    ensures Step(c, inp, s, index).Some? <==> (s.pending.Some? ==> s.portfolio.initialCash > 0.0)
    ensures Step(c, inp, s, index).Some? ==>
      var s' := Step(c, inp, s, index).value;
      && CurveOk(s'.curve, inp.frames[index].candle.openTime.instant)
      && OutcomesRead(c.market, s'.paperJournal)
  {
    ObservedIffRecordable(inp, s, index);
    assert ValidFrameAt(Normalize(inp.frames[0].candle.symbol), inp.frames, index);
    var time := inp.frames[index].candle.closeTime;
    var s1 := Observe(inp, s, index).value;
    ExecutionSucceeds(c, inp, s1, index);
    if ExecutePending(c, inp, s1, index).Some? {
      var s2 := ExecutePending(c, inp, s1, index).value;
      var a := c.analyze(Candles(inp.frames[..index + 1]), time).value;
      DecisionSucceeds(c, inp, Analyzed(s2, index, time, a), index, a);
      DecideKeepsBooks(c, inp, Analyzed(s2, index, time, a), index, a);
    }
  }

  /** From a ready state a recordable candle goes through exactly if it has no order or the run began with
      money, and leaves a ready state. */
  lemma StepSucceeds(c: Engine, inp: Inputs, s: RunState, index: nat)
    requires c.Faithful() && Collaborates(c, inp) && ValidFrames(inp.frames) && index < |inp.frames|
    requires Ready(c, s, Clock(inp, index)) && Recordable(inp.frames[index])
    ensures Step(c, inp, s, index).Some? <==> (s.pending.Some? ==> s.portfolio.initialCash > 0.0)
    ensures Step(c, inp, s, index).Some? ==> Ready(c, Step(c, inp, s, index).value, Clock(inp, index + 1))
  {
    StageFacts(c, inp, s, index);
    if Step(c, inp, s, index).Some? {
      StepKeepsBooks(c, inp, s, index);
      assert ValidFrameAt(Normalize(inp.frames[0].candle.symbol), inp.frames, index);
      var s', time := Step(c, inp, s, index).value, inp.frames[index].candle.closeTime;
      if s'.pending.Some? {
        IntentIsSupplied(inp.intents, time);
        ApprovedIntentReads(c, inp, s'.pending.value, IntentAt(inp.intents, time).value, time);
      }
    }
  }

  predicate AllRecordable(inp: Inputs, n: nat) {
    n <= |inp.frames| && forall i :: 0 <= i < n ==> Recordable(inp.frames[i])
  }

  ghost function RecordedUpTo(inp: Inputs): (RunState, nat) -> bool {
    (x: RunState, n: nat) => AllRecordable(inp, n)
  }

  lemma StepNeedsRecordable(c: Engine, inp: Inputs, s: RunState, index: nat)
    requires ValidFrames(inp.frames) && index < |inp.frames| && Step(c, inp, s, index).Some?
    ensures Recordable(inp.frames[index])
  {
    ObservedIffRecordable(inp, s, index);
  }

  lemma StepRecords(c: Engine, inp: Inputs, s: RunState, n: nat)
    requires ValidFrames(inp.frames)
    ensures KeepsAt(StepOf(c, inp), RecordedUpTo(inp), s, n)
  {
    if n < |inp.frames| && AllRecordable(inp, n) && Step(c, inp, s, n).Some? {
      StepNeedsRecordable(c, inp, s, n);
      assert AllRecordable(inp, n + 1);
    }
  }

  lemma RunRecords(c: Engine, inp: Inputs, s: RunState, stop: nat)
    requires ValidFrames(inp.frames) && stop <= |inp.frames| && Iterate(StepOf(c, inp), s, 0, stop).Some?
    ensures forall i :: 0 <= i < stop ==> Recordable(inp.frames[i])
  {
    forall x, n: nat | n < stop ensures KeepsAt(StepOf(c, inp), RecordedUpTo(inp), x, n) {
      StepRecords(c, inp, x, n);
    }
    IterateKeeps(StepOf(c, inp), RecordedUpTo(inp), s, 0, stop);
  }

  // ----- an account without money

  /** The candles that leave an order when nothing has been traded before. */
  ghost function Orders(c: Engine, inp: Inputs): nat -> bool {
    (i: nat) => i < |inp.frames| && Initial(inp).Some? && OrderedAt(c, inp, i)
  }

  ghost predicate OrderedAt(c: Engine, inp: Inputs, i: nat)
    requires i < |inp.frames| && Initial(inp).Some?
  {
    BacktestCourse.LeavesOrder(c, inp, BacktestCourse.Standing(Initial(inp).value.portfolio, [], 0), i)
  }

  predicate Untraded(inp: Inputs, s: RunState)
    requires inp.frames != [] && Initial(inp).Some?
  {
    s.portfolio == Initial(inp).value.portfolio && s.lots == [] && s.filled == 0
  }

  lemma StepWithoutOrder(c: Engine, inp: Inputs, s: RunState, i: nat)
    requires i < |inp.frames| && Initial(inp).Some? && Untraded(inp, s) && s.pending.None? && Step(c, inp, s, i).Some?
    ensures var s' := Step(c, inp, s, i).value; Untraded(inp, s') && (s'.pending.Some? <==> Orders(c, inp)(i))
  {
    var time := inp.frames[i].candle.closeTime;
    var s1 := Observe(inp, s, i).value;
    var a := c.analyze(Candles(inp.frames[..i + 1]), time).value;
    DecideKeepsBooks(c, inp, Analyzed(s1, i, time, a), i, a);
    BacktestCourse.StepLeavesOrderIff(c, inp, s, i);
  }

  /** The metrics of a curve that starts at nothing do not exist, so the simulator raises. */
  lemma OrderNeedsMoney(c: Engine, inp: Inputs, s: RunState, index: nat)
    requires index < |inp.frames| && s.pending.Some? && s.curve != [] && s.curve[0].equity <= 0.0
    ensures ExecutePending(c, inp, s, index) == None
  {
    if ExecutePending(c, inp, s, index).Some? {
      var order := c.decodeOrder(s.pending.value.orderJson).value;
      var decision := c.decodeDecision(s.pending.value.decisionJson).value;
      var quote := QuoteOf(inp.frames[index]);
      var price := SimulationShape(c.market, s.portfolio, order, decision, quote, s.paperJournal, s.curve);
    }
  }

  lemma OrderStopsCandle(c: Engine, inp: Inputs, s: RunState, index: nat)
    requires index < |inp.frames| && s.pending.Some? && s.curve != [] && s.curve[0].equity <= 0.0
    ensures Step(c, inp, s, index) == None
  {
    if Observe(inp, s, index).Some? {
      OrderNeedsMoney(c, inp, Observe(inp, s, index).value, index);
    }
  }

  ghost predicate NothingBefore(ordered: nat -> bool, n: int) {
    forall i: nat :: i < n ==> !ordered(i)
  }

  /** Nothing was traded, nothing ordered before the last of `n` candles, and what that ordered is waiting. */
  ghost predicate WithoutMoney(ordered: nat -> bool, inp: Inputs, s: RunState, n: nat)
    requires inp.frames != [] && Initial(inp).Some?
  {
    && Untraded(inp, s) && NothingBefore(ordered, n - 1)
    && (s.pending.Some? <==> n > 0 && ordered(n - 1))
  }

  lemma NextWithoutMoney(ordered: nat -> bool, inp: Inputs, s: RunState, s': RunState, n: nat)
    requires inp.frames != [] && Initial(inp).Some? && WithoutMoney(ordered, inp, s, n) && s.pending.None?
    requires Untraded(inp, s') && (s'.pending.Some? <==> ordered(n))
    ensures WithoutMoney(ordered, inp, s', n + 1)
  {
  }

  lemma StepWithoutMoney(c: Engine, inp: Inputs, s: RunState, n: nat)
    requires n < |inp.frames| && Initial(inp).Some? && WithoutMoney(Orders(c, inp), inp, s, n)
    requires s.curve != [] && s.curve[0].equity <= 0.0 && Step(c, inp, s, n).Some?
    ensures WithoutMoney(Orders(c, inp), inp, Step(c, inp, s, n).value, n + 1)
  {
    if s.pending.Some? {
      OrderStopsCandle(c, inp, s, n);
    } else {
      StepWithoutOrder(c, inp, s, n);
      NextWithoutMoney(Orders(c, inp), inp, s, Step(c, inp, s, n).value, n);
    }
  }

  lemma CurveStartsAtCash(c: Engine, inp: Inputs, stop: nat)
    requires c.Faithful() && RunUntil(c, inp, None, stop).Some?
    ensures var s := RunUntil(c, inp, None, stop).value.run;
      && s.portfolio.initialCash == inp.config.initialCash
      && s.curve != [] && s.curve[0].equity == inp.config.initialCash
  {
    BooksBalanceThroughoutRun(c, inp, stop);
  }

  ghost predicate Moneyless(c: Engine, inp: Inputs, s: RunState, n: nat) {
    && inp.frames != [] && Initial(inp).Some? && WithoutMoney(Orders(c, inp), inp, s, n)
    && BooksInv(c, s) && s.portfolio.initialCash == 0.0
  }

  ghost function MoneylessAt(c: Engine, inp: Inputs): (RunState, nat) -> bool {
    (s: RunState, n: nat) => Moneyless(c, inp, s, n)
  }

  lemma StepKeepsMoneyless(c: Engine, inp: Inputs, s: RunState, n: nat)
    requires c.Faithful() && n < |inp.frames| && Moneyless(c, inp, s, n) && Step(c, inp, s, n).Some?
    ensures Moneyless(c, inp, Step(c, inp, s, n).value, n + 1)
  {
    StepWithoutMoney(c, inp, s, n);
    StepKeepsBooks(c, inp, s, n);
  }

  lemma StepsKeepMoneyless(c: Engine, inp: Inputs, s: RunState, n: nat)
    requires c.Faithful()
    ensures KeepsAt(StepOf(c, inp), MoneylessAt(c, inp), s, n)
  {
    if Moneyless(c, inp, s, n) && n < |inp.frames| && Step(c, inp, s, n).Some? {
      StepKeepsMoneyless(c, inp, s, n);
    }
  }

  lemma FreshIsMoneyless(c: Engine, inp: Inputs)
    requires inp.frames != [] && inp.config.initialCash == 0.0
    ensures Moneyless(c, inp, Initial(inp).value, 0)
  {
    assert LotsMatch([], Initial(inp).value.portfolio);
  }

  /** Whatever the collaborators answer: a run that began with nothing has not traded, has gone no further than
      the candle after its first order, and has that order waiting. */
  lemma RunWithoutMoney(c: Engine, inp: Inputs, stop: nat)
    requires c.Faithful() && inp.config.initialCash == 0.0 && RunUntil(c, inp, None, stop).Some?
    ensures WithoutMoney(Orders(c, inp), inp, RunUntil(c, inp, None, stop).value.run, stop)
  {
    FreshIsMoneyless(c, inp);
    forall s, n: nat ensures KeepsAt(StepOf(c, inp), MoneylessAt(c, inp), s, n) {
      StepsKeepMoneyless(c, inp, s, n);
    }
    IterateKeeps(StepOf(c, inp), MoneylessAt(c, inp), Initial(inp).value, 0, stop);
  }

  // ----- which runs go through

  /** Valid frames, recordable candles on the way, and money or nothing to order before the last of them. */
  ghost predicate CanReach(c: Engine, inp: Inputs, stop: int) {
    && ValidFrames(inp.frames) && 0 <= stop && AllRecordable(inp, stop)
    && (inp.config.initialCash > 0.0 || (inp.config.initialCash == 0.0 && NothingBefore(Orders(c, inp), stop - 1)))
  }

  /** The run reaches candle `n` in a ready state. */
  ghost predicate Arrives(c: Engine, inp: Inputs, n: nat)
    requires n <= |inp.frames| && inp.frames != []
  {
    RunUntil(c, inp, None, n).Some? && Ready(c, RunUntil(c, inp, None, n).value.run, Clock(inp, n))
  }

  lemma ArrivesNext(c: Engine, inp: Inputs, stop: nat)
    requires c.Faithful() && Collaborates(c, inp) && 0 < stop && CanReach(c, inp, stop) && Arrives(c, inp, stop - 1)
    ensures Arrives(c, inp, stop)
  {
    LastCandle(c, inp, stop);
    LastStepSucceeds(c, inp, stop, RunUntil(c, inp, None, stop - 1).value.run);
  }

  lemma LastStepSucceeds(c: Engine, inp: Inputs, stop: nat, s: RunState)
    requires c.Faithful() && Collaborates(c, inp) && 0 < stop && CanReach(c, inp, stop)
    requires RunUntil(c, inp, None, stop - 1).Some? && s == RunUntil(c, inp, None, stop - 1).value.run
    requires Ready(c, s, Clock(inp, stop - 1))
    ensures Step(c, inp, s, stop - 1).Some? && Ready(c, Step(c, inp, s, stop - 1).value, Clock(inp, stop))
  {
    OrderHasMoney(c, inp, stop);
    StepSucceeds(c, inp, s, stop - 1);
  }

  lemma FreshIsReady(c: Engine, inp: Inputs)
    requires inp.frames != [] && inp.config.initialCash >= 0.0
    ensures Ready(c, Initial(inp).value, Clock(inp, 0))
  {
    assert LotsMatch([], Initial(inp).value.portfolio);
  }

  lemma CanReachBefore(c: Engine, inp: Inputs, stop: nat)
    requires 0 < stop && CanReach(c, inp, stop)
    ensures CanReach(c, inp, stop - 1)
  {
  }

  lemma {:induction false} RunSucceeds(c: Engine, inp: Inputs, stop: nat)
    requires c.Faithful() && Collaborates(c, inp) && CanReach(c, inp, stop)
    ensures Arrives(c, inp, stop)
    decreases stop
  {
    if stop == 0 {
      FreshIsReady(c, inp);
    } else {
      CanReachBefore(c, inp, stop);
      RunSucceeds(c, inp, stop - 1);
      ArrivesNext(c, inp, stop);
    }
  }

  lemma OrderHasMoney(c: Engine, inp: Inputs, stop: nat)
    requires c.Faithful() && 0 < stop && CanReach(c, inp, stop) && RunUntil(c, inp, None, stop - 1).Some?
    ensures var s := RunUntil(c, inp, None, stop - 1).value.run; s.pending.Some? ==> s.portfolio.initialCash > 0.0
  {
    CurveStartsAtCash(c, inp, stop - 1);
    if inp.config.initialCash == 0.0 {
      RunWithoutMoney(c, inp, stop - 1);
    }
  }

  /** A fresh run, with collaborators that answer, reaches a stop exactly when the frames are valid, every candle
      on the way is recordable, and the account has money or orders nothing: in no reachable state does the
      simulator find its inputs inconsistent, an order unreadable, or a lot invalid. */
  lemma RunSucceedsIff(c: Engine, inp: Inputs, stop: int)
    requires c.Faithful() && Collaborates(c, inp)
    ensures RunUntil(c, inp, None, stop).Some? <==> CanReach(c, inp, stop)
  {
    if CanReach(c, inp, stop) {
      RunSucceeds(c, inp, stop);
    }
    if RunUntil(c, inp, None, stop).Some? {
      RunRecords(c, inp, Initial(inp).value, stop);
      if inp.config.initialCash == 0.0 {
        RunWithoutMoney(c, inp, stop);
      }
    }
  }

  /** A fresh backtest with metrics, by conditions on what is supplied alone. */
  lemma BacktestSucceedsIff(c: Engine, inp: Inputs)
    requires c.Faithful() && Collaborates(c, inp)
    ensures RunBacktest(c, inp, None).Some?
      <==> ValidFrames(inp.frames) && inp.config.initialCash > 0.0 && AllRecordable(inp, |inp.frames|)
  {
    RunSucceedsIff(c, inp, |inp.frames|);
    if RunUntil(c, inp, None, |inp.frames|).Some? {
      CurveStartsAtCash(c, inp, |inp.frames|);
      RunSucceeds(c, inp, |inp.frames|);
    }
  }

  /** Without any assumption on the collaborators: a run never gets past a candle that is not recordable. */
  lemma UnrecordableCandleStopsRun(c: Engine, inp: Inputs, stop: int, i: nat)
    requires ValidFrames(inp.frames) && i < stop <= |inp.frames| && !Recordable(inp.frames[i])
    ensures RunUntil(c, inp, None, stop) == None
  {
    if RunUntil(c, inp, None, stop).Some? {
      RunRecords(c, inp, Initial(inp).value, stop);
    }
  }
}
