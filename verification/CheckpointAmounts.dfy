/** Where the amounts of a reachable checkpoint come from: if those supplied have decimal texts, and arithmetic
    does not leave the numbers that do, all of them have, and every reachable checkpoint reads back. */
module CheckpointAmounts {
  import opened Backtest
  import opened BacktestBooks
  import opened CheckpointJson
  import opened FillRule
  import opened FlatJson
  import opened Iteration
  import opened OrderTerms
  import opened PaperTrading
  import opened PurchaseLots
  import opened Text
  import opened Wrappers

  // ----- what is supplied

  predicate QuoteReads(d: Decimals, q: Quote) {
    d.Reads(q.bid) && d.Reads(q.ask) && d.Reads(q.last)
  }

  predicate FrameReads(c: Scalars, f: Frame) {
    QuoteReads(c.decimals, QuoteOf(f)) && ObservationReads(c, ObservationOf(f))
  }

  predicate ProposalReads(d: Decimals, p: Proposal) {
    d.Reads(p.quantity) && d.AllRead(p.limitPrice) && d.AllRead(p.stopPrice)
  }

  predicate IntentReads(d: Decimals, i: Intent) {
    d.Reads(i.quantity) && d.AllRead(i.limitPrice) && d.AllRead(i.stopPrice)
  }

  /** The market prices orders in numbers that have texts when it is asked in such numbers: its own rule does,
      since it prices at the quote. */
  ghost predicate PricesRead(d: Decimals, m: Market) {
    forall p, q :: ProposalReads(d, p) && QuoteReads(d, q) ==> d.AllRead(m.evaluateFill(p, q).price)
  }

  lemma RulePricesRead(d: Decimals, m: Market, wording: FillReason -> string, maximumAge: int)
    requires PricesByRule(m, wording, maximumAge)
    ensures PricesRead(d, m)
  {
    forall p, q | ProposalReads(d, p) && QuoteReads(d, q) ensures d.AllRead(m.evaluateFill(p, q).price) {
      FillsAtSideQuote(wording, maximumAge, p, q);
    }
  }

  /** All that is known before the run. */
  ghost predicate SuppliedAmountsRead(e: Engine, c: Scalars, inp: Inputs) {
    && c.decimals.Closed() && c.decimals.Reads(inp.config.initialCash) && PricesRead(c.decimals, e.market)
    && (forall i :: 0 <= i < |inp.frames| ==> FrameReads(c, inp.frames[i]))
    && (forall i :: i in inp.intents ==> IntentReads(c.decimals, i))
  }

  // ----- positions

  predicate PositionsRead(c: Scalars, ps: seq<Position>) {
    forall i :: 0 <= i < |ps| ==> PositionReads(c, ps[i])
  }

  lemma {:induction false} WithoutReads(c: Scalars, ps: seq<Position>, symbol: string)
    requires PositionsRead(c, ps)
    ensures PositionsRead(c, Without(ps, symbol))
    decreases |ps|
  {
    if ps != [] {
      WithoutReads(c, ps[1..], symbol);
    }
  }

  lemma {:induction false} InsertReads(c: Scalars, p: Position, ps: seq<Position>)
    requires PositionsRead(c, ps) && PositionReads(c, p)
    ensures PositionsRead(c, Insert(p, ps))
    decreases |ps|
  {
    if ps != [] && !Before(p.symbol, ps[0].symbol) {
      InsertReads(c, p, ps[1..]);
    }
  }

  lemma {:induction false} FindReads(c: Scalars, ps: seq<Position>, symbol: string)
    requires PositionsRead(c, ps) && Find(ps, symbol).Some?
    ensures PositionReads(c, Find(ps, symbol).value)
    decreases |ps|
  {
    if ps[0].symbol != symbol {
      FindReads(c, ps[1..], symbol);
    }
  }

  lemma {:induction false} TotalReads(d: Decimals, ps: seq<Position>, f: Position -> real)
    requires d.Closed() && forall i :: 0 <= i < |ps| ==> d.Reads(f(ps[i]))
    ensures d.Reads(Sum(ps, f))
    decreases |ps|
  {
    if ps != [] {
      assert forall i :: 0 <= i < |ps[1..]| ==> ps[1..][i] == ps[i + 1];
      TotalReads(d, ps[1..], f);
      SumReads(d, f(ps[0]), Sum(ps[1..], f));
    }
  }

  lemma NewPositionReads(c: Scalars, symbol: string, quantity: real, averageCost: real, mark: real)
    requires c.decimals.Closed() && c.decimals.Reads(quantity) && c.decimals.Reads(averageCost)
      && c.decimals.Reads(mark)
    ensures PositionReads(c, NewPosition(symbol, quantity, averageCost, mark))
  {
    var p := NewPosition(symbol, quantity, averageCost, mark);
    SumReads(c.decimals, mark, averageCost);
    ProductReads(c.decimals, quantity, mark, p.marketValue);
    ProductReads(c.decimals, mark - averageCost, quantity, p.unrealized);
  }

  // ----- a fill

  predicate ChangeReads(d: Decimals, change: Change) {
    d.Reads(change.quantity) && d.Reads(change.averageCost) && d.Reads(change.cash) && d.Reads(change.realized)
  }

  lemma BuyReads(d: Decimals, cash: real, oldQuantity: real, oldCost: real, quantity: real, price: real, change: Change)
    requires d.Closed() && d.Reads(cash) && d.Reads(oldQuantity) && d.Reads(oldCost) && d.Reads(quantity)
      && d.Reads(price)
    requires oldQuantity + quantity != 0.0 && change.quantity == oldQuantity + quantity && change.realized == 0.0
    requires change.averageCost == (oldQuantity * oldCost + quantity * price) / (oldQuantity + quantity)
    requires change.cash == cash - quantity * price
    ensures ChangeReads(d, change)
  {
    var notional, cost := quantity * price, oldQuantity * oldCost;
    SumReads(d, oldQuantity, quantity);
    ProductReads(d, quantity, price, notional);
    ProductReads(d, oldQuantity, oldCost, cost);
    SumReads(d, cash, notional);
    SumReads(d, cost, notional);
    QuotientReads(d, cost + notional, change.quantity, change.averageCost);
  }

  lemma SellReads(d: Decimals, cash: real, oldQuantity: real, oldCost: real, quantity: real, price: real,
                  change: Change)
    requires d.Closed() && d.Reads(cash) && d.Reads(oldQuantity) && d.Reads(oldCost) && d.Reads(quantity)
      && d.Reads(price)
    requires change.quantity == oldQuantity - quantity && change.averageCost == oldCost
    requires change.cash == cash + quantity * price && change.realized == (price - oldCost) * quantity
    ensures ChangeReads(d, change)
  {
    var notional, gain := quantity * price, price - oldCost;
    SumReads(d, oldQuantity, quantity);
    ProductReads(d, quantity, price, notional);
    SumReads(d, cash, notional);
    SumReads(d, price, oldCost);
    ProductReads(d, gain, quantity, change.realized);
  }

  lemma FillChangeReads(c: Scalars, cash: real, existing: Option<Position>, side: Side, quantity: real, price: real)
    requires c.decimals.Closed() && c.decimals.Reads(cash) && c.decimals.Reads(quantity) && c.decimals.Reads(price)
    requires existing.Some? ==> PositionReads(c, existing.value)
    requires FillChange(cash, existing, side, quantity, price).Some?
    ensures ChangeReads(c.decimals, FillChange(cash, existing, side, quantity, price).value)
  {
    var change := FillChange(cash, existing, side, quantity, price).value;
    var oldQuantity := if existing.Some? then existing.value.quantity else 0.0;
    var oldCost := if existing.Some? then existing.value.averageCost else 0.0;
    if side.BUY? {
      BuyReads(c.decimals, cash, oldQuantity, oldCost, quantity, price, change);
    } else {
      SellReads(c.decimals, cash, oldQuantity, oldCost, quantity, price, change);
    }
  }

  lemma RepositionReads(c: Scalars, ps: seq<Position>, symbol: string, change: Change, mark: real)
    requires c.decimals.Closed() && PositionsRead(c, ps) && ChangeReads(c.decimals, change) && c.decimals.Reads(mark)
    ensures PositionsRead(c, Reposition(ps, symbol, change, mark))
  {
    WithoutReads(c, ps, symbol);
    NewPositionReads(c, symbol, change.quantity, change.averageCost, mark);
    InsertReads(c, NewPosition(symbol, change.quantity, change.averageCost, mark), Without(ps, symbol));
  }

  lemma TotalsRead(c: Scalars, ps: seq<Position>)
    requires c.decimals.Closed() && PositionsRead(c, ps)
    ensures c.decimals.Reads(Sum(ps, Unrealized)) && c.decimals.Reads(Sum(ps, MarketValue))
  {
    TotalReads(c.decimals, ps, Unrealized);
    TotalReads(c.decimals, ps, MarketValue);
  }

  /** The portfolio after a change with readable amounts. */
  lemma RebookedReads(c: Scalars, f: Portfolio, key: string, change: Change, mark: real, time: Moment)
    requires c.decimals.Closed() && PortfolioReads(c, f) && ChangeReads(c.decimals, change) && c.decimals.Reads(mark)
    ensures PortfolioReads(c, Rebooked(f, key, change, mark, time))
  {
    RepositionReads(c, f.positions, key, change, mark);
    var ps := Reposition(f.positions, key, change, mark);
    TotalsRead(c, ps);
    SumReads(c.decimals, f.realized, change.realized);
    SumReads(c.decimals, change.cash, Sum(ps, MarketValue));
  }

  lemma FoundReads(c: Scalars, ps: seq<Position>, symbol: string)
    requires PositionsRead(c, ps)
    ensures Find(ps, symbol).Some? ==> PositionReads(c, Find(ps, symbol).value)
  {
    if Find(ps, symbol).Some? {
      FindReads(c, ps, symbol);
    }
  }

  lemma ApplyFillReads(c: Scalars, f: Portfolio, symbol: string, side: Side, quantity: real, price: real, mark: real,
                       time: Moment)
    requires c.decimals.Closed() && PortfolioReads(c, f)
    requires c.decimals.Reads(quantity) && c.decimals.Reads(price) && c.decimals.Reads(mark)
    requires ApplyFill(f, symbol, side, quantity, price, mark, time).Some?
    ensures PortfolioReads(c, ApplyFill(f, symbol, side, quantity, price, mark, time).value.0)
  {
    var key := Normalize(symbol);
    FoundReads(c, f.positions, key);
    FillChangeReads(c, f.cash, Find(f.positions, key), side, quantity, price);
    RebookedReads(c, f, key, FillChange(f.cash, Find(f.positions, key), side, quantity, price).value, mark, time);
  }

  // ----- lots

  predicate LotsRead(c: Scalars, lots: seq<Lot>) {
    forall i :: 0 <= i < |lots| ==> LotReads(c, lots[i])
  }

  lemma {:induction false} SoldLotsRead(c: Scalars, lots: seq<Lot>, symbol: string, remaining: real)
    requires c.decimals.Closed() && LotsRead(c, lots) && c.decimals.Reads(remaining)
    ensures LotsRead(c, Sell(lots, symbol, remaining))
    decreases |lots|
  {
    if lots != [] {
      var used := Used(lots[0], symbol, remaining);
      assert LotReads(c, lots[0]);
      SumReads(c.decimals, lots[0].remaining, used);
      SumReads(c.decimals, remaining, used);
      SoldLotsRead(c, lots[1..], symbol, remaining - used);
    }
  }

  lemma UpdatedLotsRead(c: Scalars, lots: seq<Lot>, fill: Option<Fill>)
    requires c.decimals.Closed() && LotsRead(c, lots) && (fill.Some? ==> c.decimals.Reads(fill.value.quantity))
    ensures LotsRead(c, Updated(lots, fill))
  {
    if fill.Some? && fill.value.side != "BUY" {
      SoldLotsRead(c, lots, fill.value.symbol, fill.value.quantity);
    }
  }

  // ----- one candle

  /** Everything but the observations, which are those of the supplied frames. */
  predicate StoredAmountsRead(c: Scalars, s: RunState) {
    && PortfolioReads(c, s.portfolio) && LotsRead(c, s.lots)
    && (forall i :: 0 <= i < |s.history| ==> PortfolioReads(c, s.history[i]))
    && (forall i :: 0 <= i < |s.curve| ==> c.decimals.Reads(s.curve[i].equity))
  }

  predicate PendingAmountsRead(e: Engine, c: Scalars, pending: Option<Pending>) {
    pending.Some? && e.decodeOrder(pending.value.orderJson).Some? ==>
      ProposalReads(c.decimals, e.decodeOrder(pending.value.orderJson).value)
  }

  lemma SimulationReads(c: Scalars, m: Market, f: Portfolio, order: Proposal, decision: Compliance, quote: Quote,
                        journal: seq<JournalEvent>, curve: seq<EquityPoint>)
    requires c.decimals.Closed() && PricesRead(c.decimals, m) && PortfolioReads(c, f)
    requires ProposalReads(c.decimals, order) && QuoteReads(c.decimals, quote)
    requires Simulate(m, f, order, decision, quote, journal, curve).Some?
    ensures var sim := Simulate(m, f, order, decision, quote, journal, curve).value;
      && PortfolioReads(c, sim.portfolio) && (sim.fill.Some? ==> sim.fill.value.quantity == order.quantity)
      && (sim.curve == curve || sim.curve == curve + [EquityPoint(quote.time, sim.portfolio.equity)])
  {
    var sim := Simulate(m, f, order, decision, quote, journal, curve).value;
    if sim.fill.Some? {
      var price := m.evaluateFill(order, quote).price;
      assert c.decimals.AllRead(price);
      ApplyFillReads(c, f, order.symbol, order.side, order.quantity, price.value, quote.last, quote.time);
    }
  }

  lemma ExecutedReads(c: Scalars, s: RunState, index: int, time: Moment, sim: Simulation, quote: Quote)
    requires c.decimals.Closed() && StoredAmountsRead(c, s) && PortfolioReads(c, sim.portfolio)
    requires sim.fill.Some? ==> c.decimals.Reads(sim.fill.value.quantity)
    requires sim.curve == s.curve || sim.curve == s.curve + [EquityPoint(quote.time, sim.portfolio.equity)]
    ensures StoredAmountsRead(c, Executed(s, index, time, sim))
  {
    UpdatedLotsRead(c, s.lots, sim.fill);
  }

  lemma ExecutionReads(e: Engine, c: Scalars, inp: Inputs, s: RunState, index: nat)
    requires index < |inp.frames| && SuppliedAmountsRead(e, c, inp) && ExecutePending(e, inp, s, index).Some?
    requires StoredAmountsRead(c, s) && PendingAmountsRead(e, c, s.pending)
    ensures StoredAmountsRead(c, ExecutePending(e, inp, s, index).value)
  {
    if s.pending.Some? {
      var order := e.decodeOrder(s.pending.value.orderJson).value;
      var decision := e.decodeDecision(s.pending.value.decisionJson).value;
      var quote := QuoteOf(inp.frames[index]);
      assert FrameReads(c, inp.frames[index]);
      SimulationReads(c, e.market, s.portfolio, order, decision, quote, s.paperJournal, s.curve);
      var sim := Simulate(e.market, s.portfolio, order, decision, quote, s.paperJournal, s.curve).value;
      ExecutedReads(c, s, index, inp.frames[index].candle.closeTime, sim, quote);
    }
  }

  lemma StepReads(e: Engine, c: Scalars, inp: Inputs, s: RunState, index: nat)
    requires index < |inp.frames| && SuppliedAmountsRead(e, c, inp) && Step(e, inp, s, index).Some?
    requires StoredAmountsRead(c, s) && PendingAmountsRead(e, c, s.pending)
    ensures StoredAmountsRead(c, Step(e, inp, s, index).value)
  {
    var s1, time := Observe(inp, s, index).value, inp.frames[index].candle.closeTime;
    ExecutionReads(e, c, inp, s1, index);
    var s2 := ExecutePending(e, inp, s1, index).value;
    var a := e.analyze(Candles(inp.frames[..index + 1]), time).value;
    DecideKeepsBooks(e, inp, Analyzed(s2, index, time, a), index, a);
  }

  lemma StepPendingReads(e: Engine, c: Scalars, inp: Inputs, s: RunState, index: nat)
    requires e.Faithful() && index < |inp.frames| && SuppliedAmountsRead(e, c, inp) && Step(e, inp, s, index).Some?
    requires BooksInv(e, s)
    ensures PendingAmountsRead(e, c, Step(e, inp, s, index).value.pending)
  {
    StepKeepsBooks(e, inp, s, index);
    var pending, time := Step(e, inp, s, index).value.pending, inp.frames[index].candle.closeTime;
    if pending.Some? {
      IntentIsSupplied(inp.intents, time);
      assert IntentReads(c.decimals, IntentAt(inp.intents, time).value);
    }
  }

  // ----- the run

  ghost function AmountsKept(e: Engine, c: Scalars): (RunState, nat) -> bool {
    (s: RunState, i: nat) => BooksInv(e, s) && StoredAmountsRead(c, s) && PendingAmountsRead(e, c, s.pending)
  }

  lemma StepsKeepAmounts(e: Engine, c: Scalars, inp: Inputs, s: RunState, i: nat)
    requires e.Faithful() && SuppliedAmountsRead(e, c, inp)
    ensures KeepsAt(StepOf(e, inp), AmountsKept(e, c), s, i)
  {
    if AmountsKept(e, c)(s, i) && i < |inp.frames| && Step(e, inp, s, i).Some? {
      StepReads(e, c, inp, s, i);
      StepPendingReads(e, c, inp, s, i);
      StepKeepsBooks(e, inp, s, i);
    }
  }

  lemma RunKeepsAmounts(e: Engine, c: Scalars, inp: Inputs, s: RunState, stop: nat)
    requires e.Faithful() && SuppliedAmountsRead(e, c, inp) && AmountsKept(e, c)(s, 0)
    requires Iterate(StepOf(e, inp), s, 0, stop).Some?
    ensures AmountsKept(e, c)(Iterate(StepOf(e, inp), s, 0, stop).value, stop)
  {
    forall x, i: nat ensures KeepsAt(StepOf(e, inp), AmountsKept(e, c), x, i) {
      StepsKeepAmounts(e, c, inp, x, i);
    }
    IterateKeeps(StepOf(e, inp), AmountsKept(e, c), s, 0, stop);
  }

  lemma ObservationsRead(e: Engine, c: Scalars, inp: Inputs, s: RunState, n: nat)
    requires SuppliedAmountsRead(e, c, inp) && n <= |inp.frames| && ObservationsAre(inp, s, n)
    ensures forall i :: 0 <= i < |s.observations| ==> ObservationReads(c, s.observations[i])
  {
    forall i | 0 <= i < |s.observations| ensures ObservationReads(c, s.observations[i]) {
      assert FrameReads(c, inp.frames[i]);
    }
  }

  /** From what is supplied: every amount in every reachable checkpoint has a decimal text. */
  lemma ReachableAmountsRead(e: Engine, c: Scalars, inp: Inputs, stop: int)
    requires e.Faithful() && SuppliedAmountsRead(e, c, inp) && RunUntil(e, inp, None, stop).Some?
    ensures AmountsRead(c, RunUntil(e, inp, None, stop).value.run)
  {
    FreshAmountsRead(e, c, inp);
    RunKeepsAmounts(e, c, inp, Initial(inp).value, stop);
    RunObserves(e, inp, Initial(inp).value, 0, stop);
    AllAmountsRead(e, c, inp, RunUntil(e, inp, None, stop).value.run, stop);
  }

  lemma FreshAmountsRead(e: Engine, c: Scalars, inp: Inputs)
    requires SuppliedAmountsRead(e, c, inp) && inp.frames != [] && Initial(inp).Some?
    ensures AmountsKept(e, c)(Initial(inp).value, 0)
  {
    assert LotsMatch([], Initial(inp).value.portfolio);
  }

  lemma AllAmountsRead(e: Engine, c: Scalars, inp: Inputs, s: RunState, n: nat)
    requires SuppliedAmountsRead(e, c, inp) && n <= |inp.frames| && ObservationsAre(inp, s, n)
    requires AmountsKept(e, c)(s, n)
    ensures AmountsRead(c, s)
  {
    ObservationsRead(e, c, inp, s, n);
  }

  /** So every reachable checkpoint survives JSON, and pausing through a file changes nothing, under conditions
      on what is supplied alone. */
  lemma SuppliedAmountsRoundTrip(e: Engine, c: Scalars, inp: Inputs, j: int, k: int)
    requires e.Faithful() && c.Faithful() && SuppliedAmountsRead(e, c, inp) && 0 <= j <= k <= |inp.frames|
    ensures RunUntil(e, inp, None, j).None? ==> RunUntil(e, inp, None, k).None?
    ensures RunUntil(e, inp, None, j).Some? ==>
      var cp := RunUntil(e, inp, None, j).value;
      && ToJson(c, cp).Some? && FromJson(c, ToJson(c, cp).value) == Some(cp)
      && RunUntil(e, inp, FromJson(c, ToJson(c, cp).value), k) == RunUntil(e, inp, None, k)
  {
    SerializedPauseResume(e, c, inp, j, k);
    if RunUntil(e, inp, None, j).Some? {
      ReachableAmountsRead(e, c, inp, j);
      ReachableCheckpointsRoundTrip(e, c, inp, j);
    }
  }
}
