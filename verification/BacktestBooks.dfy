/** Over whole replay runs the purchase lots, the positions and the cash tell one consistent story. */
module BacktestBooks {
  import opened Wrappers
  import opened Text
  import opened PurchaseLots
  import opened PaperTrading
  import opened Iteration
  import opened Backtest
  import GoodFaith

  /** The waiting order, where its text reads, is an order for a named symbol. */
  ghost predicate PendingOk(c: Engine, pending: Option<Pending>) {
    pending.Some? && c.decodeOrder(pending.value.orderJson).Some? ==>
      !IsBlank(Normalize(c.decodeOrder(pending.value.orderJson).value.symbol))
  }

  /** Books balance, every lot is one of the engine's own, lots and positions agree on every symbol, and the
      equity curve leads from the initial cash to the current equity. */
  ghost predicate BooksInv(c: Engine, s: RunState) {
    && Balanced(s.portfolio) && OwnLots(s.lots) && LotsMatch(s.lots, s.portfolio) && PendingOk(c, s.pending)
    && InSymbolOrder(s.portfolio.positions)
    && s.curve != [] && s.curve[0].equity == s.portfolio.initialCash
    && s.curve[|s.curve| - 1].equity == s.portfolio.equity
  }

  lemma NormalizedIsNotBlank(symbol: string)
    requires Normalize(symbol) != ""
    ensures !IsBlank(Normalize(symbol))
  {
    StripEnds(symbol);
    assert !IsSpace(Normalize(symbol)[0]);
  }

  lemma ExecuteKeepsBooks(c: Engine, inp: Inputs, s: RunState, index: nat)
    requires index < |inp.frames| && BooksInv(c, s) && ExecutePending(c, inp, s, index).Some?
    ensures var s' := ExecutePending(c, inp, s, index).value;
      BooksInv(c, s') && s'.pending.None? && s'.portfolio.initialCash == s.portfolio.initialCash
  {
    if s.pending.Some? {
      var order := c.decodeOrder(s.pending.value.orderJson).value;
      var decision := c.decodeDecision(s.pending.value.decisionJson).value;
      var quote := QuoteOf(inp.frames[index]);
      SimulatedBooks(c, s, order, decision, quote);
      var sim := Simulate(c.market, s.portfolio, order, decision, quote, s.paperJournal, s.curve).value;
      ExecutedBooks(c, s, index, inp.frames[index].candle.closeTime, sim);
    }
  }

  /** What a simulated order leaves: consistent books, and a curve that has at most grown. */
  lemma SimulatedBooks(c: Engine, s: RunState, order: Proposal, decision: Compliance, quote: Quote)
    requires BooksInv(c, s) && !IsBlank(Normalize(order.symbol))
    requires Simulate(c.market, s.portfolio, order, decision, quote, s.paperJournal, s.curve).Some?
    ensures var sim := Simulate(c.market, s.portfolio, order, decision, quote, s.paperJournal, s.curve).value;
      && Balanced(sim.portfolio) && sim.portfolio.initialCash == s.portfolio.initialCash
      && InSymbolOrder(sim.portfolio.positions)
      && OwnLots(Updated(s.lots, sim.fill)) && LotsMatch(Updated(s.lots, sim.fill), sim.portfolio)
      && LotConstructible(sim.fill) && MetricsExist(c.market, sim.journal, sim.curve)
      && sim.curve[0] == s.curve[0] && sim.curve[|sim.curve| - 1].equity == sim.portfolio.equity
      && (sim.curve == s.curve || sim.curve == s.curve + [EquityPoint(quote.time, sim.portfolio.equity)])
  {
    var sim := Simulate(c.market, s.portfolio, order, decision, quote, s.paperJournal, s.curve).value;
    var price := SimulationShape(c.market, s.portfolio, order, decision, quote, s.paperJournal, s.curve);
    SimulationKeepsBooks(s.portfolio, order, quote, s.curve, sim, price, s.lots);
    if sim.fill.Some? {
      ApplyFillKeepsSymbolOrder(s.portfolio, order.symbol, order.side, order.quantity, price, quote.last, quote.time);
    }
  }

  lemma ExecutedBooks(c: Engine, s: RunState, index: int, time: Moment, sim: Simulation)
    requires Balanced(sim.portfolio) && InSymbolOrder(sim.portfolio.positions) && OwnLots(Updated(s.lots, sim.fill))
      && LotsMatch(Updated(s.lots, sim.fill), sim.portfolio)
    requires sim.curve != [] && sim.curve[0].equity == sim.portfolio.initialCash
      && sim.curve[|sim.curve| - 1].equity == sim.portfolio.equity
    ensures BooksInv(c, Executed(s, index, time, sim))
  {
  }

  ghost predicate SameBooks(s: RunState, s': RunState) {
    && s'.portfolio == s.portfolio && s'.lots == s.lots && s'.curve == s.curve && s'.history == s.history
    && s'.paperJournal == s.paperJournal && s'.filled == s.filled
  }

  /** Only execution touches the books: a decision leaves them alone. */
  lemma DecideKeepsBooks(c: Engine, inp: Inputs, s: RunState, index: nat, a: Analysis)
    requires index < |inp.frames| && Decide(c, inp, s, index, a).Some?
    ensures SameBooks(s, Decide(c, inp, s, index, a).value)
  {
  }

  lemma ProposeLeaves(c: Engine, inp: Inputs, s: RunState, index: nat, i: Intent, risk: Risk)
    requires c.Faithful() && index < |inp.frames| && Normalize(i.symbol) != ""
      && Propose(c, inp, s, index, i, risk).Some?
    ensures PendingOk(c, Propose(c, inp, s, index, i, risk).value.pending)
    ensures var s' := Propose(c, inp, s, index, i, risk).value;
      s'.pending.Some? ==> IsApprovedIntent(c, s'.pending.value, i, inp.frames[index].candle.closeTime)
  {
    NormalizedIsNotBlank(i.symbol);
    var time := inp.frames[index].candle.closeTime;
    var proposal := ProposalOf(i, time);
    var gfv := GfvDecision(inp, s, i, time);
    var s1 := AfterGfv(s, index, time, gfv);
    var d := c.comply(proposal, s1.portfolio, s1.filled, inp.frames[index].marketState, gfv, risk).value;
    assert Decided(c, d);
    assert s1.pending == s.pending;
    var pending := Pending(c.encodeOrder(proposal), c.encodeDecision(d));
    assert c.decodeOrder(pending.orderJson).Some? ==> c.decodeOrder(pending.orderJson).value == proposal;
    assert c.decodeDecision(pending.decisionJson).Some? ==> c.decodeDecision(pending.decisionJson).value == d;
  }

  /** The two texts are those of the intent itself, neither resized nor repriced, and of an approval: what
      the next candle executes is that or nothing. */
  ghost predicate IsApprovedIntent(c: Engine, pending: Pending, i: Intent, time: Moment) {
    && pending.orderJson == c.encodeOrder(ProposalOf(i, time))
    && (c.decodeOrder(pending.orderJson).Some? ==> c.decodeOrder(pending.orderJson).value == ProposalOf(i, time))
    && (exists d: Compliance :: d.approved && Decided(c, d) && pending.decisionJson == c.encodeDecision(d))
    && (c.decodeDecision(pending.decisionJson).Some? ==> c.decodeDecision(pending.decisionJson).value.approved)
  }

  /** A decision that order compliance makes on something. */
  ghost predicate Decided(c: Engine, d: Compliance) {
    exists p, f, n, m, g, r :: c.comply(p, f, n, m, g, r) == Some(d)
  }

  lemma DecideLeaves(c: Engine, inp: Inputs, s: RunState, index: nat, a: Analysis)
    requires c.Faithful() && index < |inp.frames| && s.pending.None? && Decide(c, inp, s, index, a).Some?
    ensures PendingOk(c, Decide(c, inp, s, index, a).value.pending)
    ensures var s' := Decide(c, inp, s, index, a).value; var time := inp.frames[index].candle.closeTime;
      s'.pending.Some? ==>
        IntentAt(inp.intents, time).Some?
          && IsApprovedIntent(c, s'.pending.value, IntentAt(inp.intents, time).value, time)
  {
    var time := inp.frames[index].candle.closeTime;
    var supplied := ResponseAt(inp.responses, time);
    if index + 1 >= inp.config.warmupCandles && supplied.Some? && c.parse(supplied.value.rawJson).Parsed? {
      var advice := c.parse(supplied.value.rawJson).advice;
      var risk := c.assess(advice, a.snapshot).value;
      var s0 := Emit(s, index, time, AI_RESPONSE, Advised(advice.action), []);
      var s1 := Emit(s0, index, time, RISK, Verdict(risk.approved), []);
      var intent := IntentAt(inp.intents, time);
      if !advice.action.HOLD? && intent.Some? && IntentMatches(intent.value, advice.action) {
        ProposeLeaves(c, inp, s1, index, intent.value, risk);
      }
    }
  }

  lemma StepKeepsBooks(c: Engine, inp: Inputs, s: RunState, index: nat)
    requires c.Faithful() && index < |inp.frames| && BooksInv(c, s) && Step(c, inp, s, index).Some?
    ensures var s' := Step(c, inp, s, index).value;
      && BooksInv(c, s') && s'.portfolio.initialCash == s.portfolio.initialCash
      && var time := inp.frames[index].candle.closeTime;
         (s'.pending.Some? ==>
            && IntentAt(inp.intents, time).Some?
            && IsApprovedIntent(c, s'.pending.value, IntentAt(inp.intents, time).value, time))
  {
    var s1 := Observe(inp, s, index).value;
    ExecuteKeepsBooks(c, inp, s1, index);
    var s2 := ExecutePending(c, inp, s1, index).value;
    var time := inp.frames[index].candle.closeTime;
    var a := c.analyze(Candles(inp.frames[..index + 1]), time).value;
    DecideLeaves(c, inp, Analyzed(s2, index, time, a), index, a);
    DecideKeepsBooks(c, inp, Analyzed(s2, index, time, a), index, a);
  }

  ghost function BooksKept(c: Engine, initialCash: real): (RunState, nat) -> bool {
    (s: RunState, i: nat) => BooksInv(c, s) && s.portfolio.initialCash == initialCash
  }

  lemma StepsKeepBooks(c: Engine, inp: Inputs, initialCash: real, s: RunState, i: nat)
    requires c.Faithful()
    ensures KeepsAt(StepOf(c, inp), BooksKept(c, initialCash), s, i)
  {
    if BooksInv(c, s) && i < |inp.frames| && Step(c, inp, s, i).Some? {
      StepKeepsBooks(c, inp, s, i);
    }
  }

  lemma RunKeepsBooks(c: Engine, inp: Inputs, s: RunState, first: nat, stop: nat)
    requires c.Faithful() && first <= stop && BooksInv(c, s)
    requires Iterate(StepOf(c, inp), s, first, stop).Some?
    ensures var s' := Iterate(StepOf(c, inp), s, first, stop).value;
      BooksInv(c, s') && s'.portfolio.initialCash == s.portfolio.initialCash
  {
    var cash := s.portfolio.initialCash;
    forall x, i: nat ensures KeepsAt(StepOf(c, inp), BooksKept(c, cash), x, i) {
      StepsKeepBooks(c, inp, cash, x, i);
    }
    IterateKeeps(StepOf(c, inp), BooksKept(c, cash), s, first, stop);
  }

  /** In every checkpoint that a fresh run reaches: cash plus the cost of open positions equals the initial
      cash plus realised profit, equity adds unrealised profit, and for every symbol the purchase lots add up
      to the position held. */
  lemma BooksBalanceThroughoutRun(c: Engine, inp: Inputs, stop: int)
    requires c.Faithful() && RunUntil(c, inp, None, stop).Some?
    ensures var s := RunUntil(c, inp, None, stop).value.run;
      BooksInv(c, s) && s.portfolio.initialCash == inp.config.initialCash
  {
    var s := Initial(inp).value;
    assert LotsMatch(s.lots, s.portfolio);
    RunKeepsBooks(c, inp, s, 0, stop);
  }

  lemma {:induction false} OwnLotsAreSafe(lots: seq<Lot>, symbol: string, today: int)
    requires OwnLots(lots)
    ensures GoodFaith.SafeQuantity(GoodFaith.Matching(lots, symbol), today)
      == GoodFaith.Total(GoodFaith.Matching(lots, symbol))
    decreases |lots|
  {
    if lots != [] {
      assert OwnLots(lots[1..]) by {
        assert forall i :: 0 <= i < |lots[1..]| ==> lots[1..][i] == lots[i + 1];
      }
      OwnLotsAreSafe(lots[1..], symbol, today);
      var rest := GoodFaith.Matching(lots[1..], symbol);
      assert ([lots[0]] + rest)[1..] == rest && [] + rest == rest;
    }
  }

  /** Because the engine books every purchase as settled cash, inside a replay the good-faith check never
      restricts anything: a cash sale passes it exactly when it is well formed and within the position. */
  lemma GfvNeverRestrictsReplay(c: Engine, inp: Inputs, s: RunState, i: Intent, time: Moment)
    requires BooksInv(c, s) && i.side.SELL? && inp.config.account.CASH?
    ensures GfvDecision(inp, s, i, time).value.approved
      <==> !IsBlank(i.symbol) && 0.0 < i.quantity <= Quantity(s.portfolio.positions, Normalize(i.symbol))
  {
    var key := Normalize(i.symbol);
    OwnLotsAreSafe(s.lots, key, time.date);
    GoodFaith.MatchingTotal(s.lots, key);
    GoodFaith.DecisionIsRight(i.symbol, i.quantity, Some(inp.config.account), Some(time), s.lots);
    assert Held(s.lots, key) == Quantity(s.portfolio.positions, key);
  }
}
