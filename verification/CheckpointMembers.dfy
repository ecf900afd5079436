/** Which JSON values are read as which checkpoint, member by member. */
module CheckpointMembers {
  import opened Wrappers
  import opened SettlementCalendar
  import opened PurchaseLots
  import opened PaperTrading
  import opened Backtest
  import opened CheckpointJson
  import opened JsonTree

  predicate IsInt(d: Dict, k: Key, n: int) {
    k in d && d[k] == Num(n)
  }

  predicate IsText(d: Dict, k: Key, s: string) {
    k in d && d[k] == Str(s)
  }

  predicate IsAmount(c: Scalars, d: Dict, k: Key, x: real) {
    k in d && d[k].Str? && c.decimals.parse(d[k].s) == Some(x)
  }

  predicate IsTime(c: Scalars, d: Dict, k: Key, m: Moment) {
    k in d && d[k].Str? && c.readMoment(d[k].s) == Some(m)
  }

  /** Absent and null both mean no label. */
  predicate IsLabel(d: Dict, k: Key, v: Option<string>) {
    if v.Some? then IsText(d, k, v.value) else k in d ==> d[k].Null?
  }

  predicate IsSlippage(c: Scalars, d: Dict, k: Key, v: Option<Unchecked>) {
    if v.None? then k in d ==> d[k].Null?
    else v.value.Finite? && IsAmount(c, d, k, v.value.amount)
  }

  /** Item by item. */
  ghost predicate IsList<T(!new)>(d: Dict, k: Key, xs: seq<T>, item: (Json, T) -> bool) {
    && k in d && d[k].Arr? && |d[k].items| == |xs|
    && forall i :: 0 <= i < |xs| ==> item(d[k].items[i], xs[i])
  }

  predicate IsPair(j: Json, p: (string, string)) {
    j == Arr([Str(p.0), Str(p.1)])
  }

  predicate IsPosition(c: Scalars, j: Json, p: Position) {
    && j.Obj? && IsText(j.fields, SYMBOL, p.symbol) && IsAmount(c, j.fields, QUANTITY, p.quantity)
    && IsAmount(c, j.fields, AVERAGE_COST, p.averageCost) && IsAmount(c, j.fields, CURRENT_MARK, p.mark)
    && IsAmount(c, j.fields, MARKET_VALUE, p.marketValue) && IsAmount(c, j.fields, UNREALIZED_PNL, p.unrealized)
  }

  ghost predicate IsPortfolio(c: Scalars, j: Json, f: Portfolio) {
    && j.Obj? && IsAmount(c, j.fields, INITIAL_CASH, f.initialCash) && IsAmount(c, j.fields, CASH, f.cash)
    && IsList(j.fields, POSITIONS, f.positions, (x, p) => IsPosition(c, x, p))
    && IsAmount(c, j.fields, REALIZED_PNL, f.realized) && IsAmount(c, j.fields, UNREALIZED_PNL, f.unrealized)
    && IsAmount(c, j.fields, EQUITY, f.equity) && IsTime(c, j.fields, TIMESTAMP, f.time)
  }

  ghost predicate IsJournalEvent(c: Scalars, j: Json, e: JournalEvent) {
    && j.Obj? && IsInt(j.fields, SEQUENCE, e.sequence)
    && EVENT_TYPE in j.fields && j.fields[EVENT_TYPE].Str? && c.readJournal(j.fields[EVENT_TYPE].s) == Some(e.eventType)
    && IsText(j.fields, REQUEST_ID, e.requestId) && IsTime(c, j.fields, TIMESTAMP, e.time)
    && IsText(j.fields, MESSAGE, e.message) && IsList(j.fields, DETAILS, e.details, IsPair)
  }

  ghost predicate IsReplayEvent(c: Scalars, j: Json, e: ReplayEvent) {
    && j.Obj? && IsInt(j.fields, SEQUENCE, e.sequence) && IsInt(j.fields, CANDLE_INDEX, e.candle)
    && IsTime(c, j.fields, TIMESTAMP, e.time)
    && EVENT_TYPE in j.fields && j.fields[EVENT_TYPE].Str? && c.readKind(j.fields[EVENT_TYPE].s) == Some(e.eventType)
    && EVENT_STATUS in j.fields && j.fields[EVENT_STATUS].Str?
    && c.readStatus(j.fields[EVENT_STATUS].s) == Some(e.status)
    && IsList(j.fields, DETAILS, e.details, IsPair)
  }

  predicate IsEquityPoint(c: Scalars, j: Json, p: EquityPoint) {
    j.Obj? && IsTime(c, j.fields, TIMESTAMP, p.time) && IsAmount(c, j.fields, EQUITY, p.equity)
  }

  /** A settlement date that is null, empty or another false value is none, but the member must be there. */
  predicate IsDate(c: Scalars, d: Dict, k: Key, v: Option<Date>) {
    && k in d
    && if v.Some? then d[k].Str? && d[k].s != "" && c.readDate(d[k].s) == v
       else d[k] in {Null, Bool(false), Num(0), Arr([]), Obj(map[]), Str("")}
  }

  /** The lot must also pass its constructor. */
  predicate IsLot(c: Scalars, j: Json, lot: Lot) {
    && j.Obj? && IsText(j.fields, SYMBOL, lot.symbol) && IsAmount(c, j.fields, QUANTITY, lot.quantity)
    && IsTime(c, j.fields, PURCHASE_TIMESTAMP, lot.purchased)
    && FUNDING_SOURCE in j.fields && j.fields[FUNDING_SOURCE].Str?
    && c.readFunding(j.fields[FUNDING_SOURCE].s) == Some(lot.funding)
    && IsDate(c, j.fields, FUNDING_SETTLEMENT_DATE, lot.settlementDate)
    && IsAmount(c, j.fields, REMAINING_QUANTITY, lot.remaining)
    && ValidLot(lot)
  }

  predicate IsPending(j: Json, pending: Option<Pending>) {
    if pending.None? then j.Null?
    else
      && j.Obj? && IsText(j.fields, PROPOSAL_JSON, pending.value.orderJson)
      && IsText(j.fields, COMPLIANCE_JSON, pending.value.decisionJson)
  }

  predicate HasAmounts(c: Scalars, d: Dict, o: Observation) {
    && IsAmount(c, d, OPEN, o.open) && IsAmount(c, d, HIGH, o.high) && IsAmount(c, d, LOW, o.low)
    && IsAmount(c, d, CLOSE, o.close) && IsAmount(c, d, VOLUME, o.volume)
    && IsAmount(c, d, BID, o.bid) && IsAmount(c, d, ASK, o.ask)
  }

  predicate HasLabels(c: Scalars, d: Dict, o: Observation) {
    && IsTime(c, d, TIMESTAMP, o.time) && IsText(d, SYMBOL, o.symbol) && IsLabel(d, SESSION, o.session)
    && IsLabel(d, MARKET_STATUS, o.marketStatus) && IsSlippage(c, d, OBSERVED_SLIPPAGE, o.slippage)
    && IsLabel(d, VOLATILITY_REGIME, o.volatility) && IsLabel(d, TREND_REGIME, o.trend)
  }

  /** The observation must also pass its constructor. */
  predicate IsObservation(c: Scalars, j: Json, o: Observation) {
    j.Obj? && HasAmounts(c, j.fields, o) && HasLabels(c, j.fields, o) && ObservationOk(o)
  }

  predicate IsHeader(d: Dict, version: int, f: Fingerprints) {
    && IsInt(d, SCHEMA_VERSION, version)
    && IsText(d, DATASET_FINGERPRINT, f.dataset) && IsText(d, RESPONSE_FINGERPRINT, f.responses)
    && IsText(d, INTENT_FINGERPRINT, f.intents) && IsText(d, CONFIG_FINGERPRINT, f.config)
  }

  predicate IsCounts(d: Dict, s: RunState) {
    && IsInt(d, NEXT_CANDLE_INDEX, s.next) && IsInt(d, PROPOSALS, s.proposals) && IsInt(d, APPROVED_COUNT, s.approved)
    && IsInt(d, REJECTED_COUNT, s.rejected) && IsInt(d, FILLED_COUNT, s.filled)
    && PENDING_EXECUTION in d && IsPending(d[PENDING_EXECUTION], s.pending)
  }

  ghost predicate IsJournal<T(!new)>(d: Dict, k: Key, xs: seq<T>, item: (Json, T) -> bool) {
    k in d && d[k].Obj? && IsList(d[k].fields, EVENTS, xs, item)
  }

  /** An older file may lack the observations; those listed come back in the order of their times. */
  ghost predicate AreObservations(c: Scalars, d: Dict, os: seq<Observation>) {
    if MARKET_OBSERVATIONS !in d then os == []
    else exists listed: seq<Observation> ::
      IsList(d, MARKET_OBSERVATIONS, listed, (j, o) => IsObservation(c, j, o)) && os == SortObservations(listed)
  }

  ghost predicate IsHistory(c: Scalars, d: Dict, s: RunState) {
    && PORTFOLIO in d && IsPortfolio(c, d[PORTFOLIO], s.portfolio)
    && IsJournal(d, PAPER_JOURNAL, s.paperJournal, (j, e) => IsJournalEvent(c, j, e))
    && IsJournal(d, REPLAY_JOURNAL, s.events, (j, e) => IsReplayEvent(c, j, e))
    && IsList(d, EQUITY_CURVE, s.curve, (j, p) => IsEquityPoint(c, j, p))
    && IsList(d, PORTFOLIO_HISTORY, s.history, (j, f) => IsPortfolio(c, j, f))
    && IsList(d, PURCHASE_LOTS, s.lots, (j, lot) => IsLot(c, j, lot))
    && AreObservations(c, d, s.observations)
  }

  // ----- lists

  lemma {:induction false} ParsedIff<T(!new)>(js: seq<Json>, xs: seq<T>, parse: Json -> Option<T>,
                                              item: (Json, T) -> bool)
    requires forall j, x :: item(j, x) <==> parse(j) == Some(x)
    ensures ParseAll(js, parse) == Some(xs) <==> |js| == |xs| && forall i :: 0 <= i < |xs| ==> item(js[i], xs[i])
    decreases |js|
  {
    if js != [] && xs != [] {
      ParsedIff(js[1..], xs[1..], parse, item);
      assert xs == [xs[0]] + xs[1..];
      assert item(js[0], xs[0]) <==> parse(js[0]) == Some(xs[0]);
      if |js| == |xs| && forall i :: 0 <= i < |xs| ==> item(js[i], xs[i]) {
        assert forall i :: 0 <= i < |xs[1..]| ==> js[1..][i] == js[i + 1] && xs[1..][i] == xs[i + 1];
      }
      if ParseAll(js, parse) == Some(xs) {
        assert ParseAll(js[1..], parse).value == xs[1..];
        forall i | 0 <= i < |xs| ensures item(js[i], xs[i]) {
          if i > 0 {
            assert js[1..][i - 1] == js[i] && xs[1..][i - 1] == xs[i];
          }
        }
      }
    }
  }

  lemma ListIff<T(!new)>(d: Dict, k: Key, xs: seq<T>, parse: Json -> Option<T>, item: (Json, T) -> bool)
    requires forall j, x :: item(j, x) <==> parse(j) == Some(x)
    ensures ListAt(d, k, parse) == Some(xs) <==> IsList(d, k, xs, item)
  {
    if k in d && d[k].Arr? {
      ParsedIff(d[k].items, xs, parse, item);
    }
  }

  lemma JournalIff<T(!new)>(d: Dict, k: Key, xs: seq<T>, parse: Json -> Option<T>, item: (Json, T) -> bool)
    requires forall j, x :: item(j, x) <==> parse(j) == Some(x)
    ensures EventsAt(d, k, parse) == Some(xs) <==> IsJournal(d, k, xs, item)
  {
    if k in d && d[k].Obj? {
      ListIff(d[k].fields, EVENTS, xs, parse, item);
    }
  }

  // ----- single objects

  lemma PairIff(j: Json, p: (string, string))
    ensures ParsePair(j) == Some(p) <==> IsPair(j, p)
  {
    if ParsePair(j) == Some(p) {
      assert j.items == [Str(p.0), Str(p.1)];
    }
  }

  lemma PortfolioIff(c: Scalars, j: Json, f: Portfolio)
    ensures ParsePortfolio(c, j) == Some(f) <==> IsPortfolio(c, j, f)
  {
    if j.Obj? {
      ListIff(j.fields, POSITIONS, f.positions, x => ParsePosition(c, x), (x, p) => IsPosition(c, x, p));
    }
  }

  lemma JournalEventIff(c: Scalars, j: Json, e: JournalEvent)
    ensures ParseJournalEvent(c, j) == Some(e) <==> IsJournalEvent(c, j, e)
  {
    if j.Obj? {
      forall x, p ensures IsPair(x, p) <==> ParsePair(x) == Some(p) {
        PairIff(x, p);
      }
      ListIff(j.fields, DETAILS, e.details, ParsePair, IsPair);
    }
  }

  lemma ReplayEventIff(c: Scalars, j: Json, e: ReplayEvent)
    ensures ParseReplayEvent(c, j) == Some(e) <==> IsReplayEvent(c, j, e)
  {
    if j.Obj? {
      forall x, p ensures IsPair(x, p) <==> ParsePair(x) == Some(p) {
        PairIff(x, p);
      }
      ListIff(j.fields, DETAILS, e.details, ParsePair, IsPair);
    }
  }

  lemma LotIff(c: Scalars, j: Json, lot: Lot)
    ensures ParseLot(c, j) == Some(lot) <==> IsLot(c, j, lot)
  {
  }

  lemma AmountsIff(c: Scalars, d: Dict, o: Observation)
    ensures ParseAmounts(c, d) == Some(Amounts(o.open, o.high, o.low, o.close, o.volume, o.bid, o.ask))
      <==> HasAmounts(c, d, o)
  {
  }

  lemma LabelsIff(c: Scalars, d: Dict, o: Observation)
    ensures ParseLabels(c, d) ==
        Some(Labels(o.time, o.symbol, o.session, o.marketStatus, o.slippage, o.volatility, o.trend))
      <==> HasLabels(c, d, o)
  {
    assert LabelAt(d, SESSION) == Some(o.session) <==> IsLabel(d, SESSION, o.session);
    assert SlippageAt(c, d, OBSERVED_SLIPPAGE) == Some(o.slippage) <==> IsSlippage(c, d, OBSERVED_SLIPPAGE, o.slippage);
  }

  /** What is read has its amounts and labels from the two halves, and only those. */
  lemma ObservationParts(c: Scalars, j: Json, o: Observation)
    requires j.Obj?
    ensures ParseObservation(c, j) == Some(o) <==>
      && ParseAmounts(c, j.fields) == Some(Amounts(o.open, o.high, o.low, o.close, o.volume, o.bid, o.ask))
      && ParseLabels(c, j.fields) ==
           Some(Labels(o.time, o.symbol, o.session, o.marketStatus, o.slippage, o.volatility, o.trend))
      && ObservationOk(o)
  {
    var amounts, labels := ParseAmounts(c, j.fields), ParseLabels(c, j.fields);
    if amounts.Some? && labels.Some? {
      var m, l := amounts.value, labels.value;
      assert m == Amounts(m.open, m.high, m.low, m.close, m.volume, m.bid, m.ask);
      assert l == Labels(l.time, l.symbol, l.session, l.status, l.slippage, l.volatility, l.trend);
    }
  }

  lemma ObservationIff(c: Scalars, j: Json, o: Observation)
    ensures ParseObservation(c, j) == Some(o) <==> IsObservation(c, j, o)
  {
    if j.Obj? {
      AmountsIff(c, j.fields, o);
      LabelsIff(c, j.fields, o);
      ObservationParts(c, j, o);
    }
  }

  lemma ListedObservationsIff(c: Scalars, d: Dict, listed: seq<Observation>)
    ensures ListAt(d, MARKET_OBSERVATIONS, j => ParseObservation(c, j)) == Some(listed)
      <==> IsList(d, MARKET_OBSERVATIONS, listed, (j, o) => IsObservation(c, j, o))
  {
    forall j, o ensures IsObservation(c, j, o) <==> ParseObservation(c, j) == Some(o) {
      ObservationIff(c, j, o);
    }
    ListIff(d, MARKET_OBSERVATIONS, listed, j => ParseObservation(c, j), (j, o) => IsObservation(c, j, o));
  }

  // ----- the order of observations

  ghost predicate InTimeOrder(os: seq<Observation>) {
    forall i, j :: 0 <= i < j < |os| ==>
      os[i].time.instant < os[j].time.instant
      || (os[i].time.instant == os[j].time.instant && !Before(os[j].symbol, os[i].symbol))
  }

  /** The observations of one symbol at one instant, in order. */
  function Same(os: seq<Observation>, instant: int, symbol: string): seq<Observation> {
    if os == [] then []
    else (if os[0].time.instant == instant && os[0].symbol == symbol then [os[0]] else [])
         + Same(os[1..], instant, symbol)
  }

  lemma NotAfterIsOrder(a: Observation, b: Observation, c: Observation)
    ensures NotAfter(a, b) <==> a.time.instant < b.time.instant
                                || (a.time.instant == b.time.instant && !Before(b.symbol, a.symbol))
    ensures NotAfter(a, b) || NotAfter(b, a)
    ensures NotAfter(a, b) && NotAfter(b, c) ==> NotAfter(a, c)
  {
    BeforeIsTotal(a.symbol, b.symbol);
    if Before(a.symbol, b.symbol) && Before(b.symbol, a.symbol) {
      BeforeIsTransitive(a.symbol, b.symbol, a.symbol);
      BeforeIsIrreflexive(a.symbol);
    }
    BeforeIsIrreflexive(a.symbol);
    if Before(a.symbol, b.symbol) && Before(b.symbol, c.symbol) {
      BeforeIsTransitive(a.symbol, b.symbol, c.symbol);
    }
  }

  lemma {:induction false} BeforeIsIrreflexive(a: string)
    ensures !Before(a, a)
    decreases |a|
  {
    if a != "" {
      BeforeIsIrreflexive(a[1..]);
    }
  }

  lemma {:induction false} PlaceKeepsElements(o: Observation, sorted: seq<Observation>)
    ensures multiset(PlaceObservation(o, sorted)) == multiset{o} + multiset(sorted)
    decreases |sorted|
  {
    if sorted != [] {
      assert sorted == [sorted[0]] + sorted[1..];
      if !NotAfter(o, sorted[0]) {
        PlaceKeepsElements(o, sorted[1..]);
      }
    }
  }

  lemma FrontIsFirst(sorted: seq<Observation>, j: nat)
    requires InTimeOrder(sorted) && j < |sorted|
    ensures NotAfter(sorted[0], sorted[j])
  {
    NotAfterIsOrder(sorted[0], sorted[j], sorted[j]);
  }

  lemma {:induction false} PlaceOrders(o: Observation, sorted: seq<Observation>)
    requires InTimeOrder(sorted)
    ensures InTimeOrder(PlaceObservation(o, sorted))
    decreases |sorted|
  {
    if sorted != [] {
      if NotAfter(o, sorted[0]) {
        forall j | 0 <= j < |sorted| ensures NotAfter(o, sorted[j]) {
          FrontIsFirst(sorted, j);
          NotAfterIsOrder(o, sorted[0], sorted[j]);
        }
        FrontOrders(o, sorted);
      } else {
        PlaceOrders(o, sorted[1..]);
        var rest := PlaceObservation(o, sorted[1..]);
        forall x | x in rest ensures NotAfter(sorted[0], x) {
          PlaceKeepsElements(o, sorted[1..]);
          assert x in multiset(rest);
          if x == o {
            NotAfterIsOrder(o, sorted[0], o);
          } else {
            var j :| 0 <= j < |sorted[1..]| && sorted[1..][j] == x;
            FrontIsFirst(sorted, j + 1);
          }
        }
        FrontOrders(sorted[0], rest);
      }
    }
  }

  lemma FrontOrders(o: Observation, rest: seq<Observation>)
    requires InTimeOrder(rest) && forall x :: x in rest ==> NotAfter(o, x)
    ensures InTimeOrder([o] + rest)
  {
    forall j | 0 <= j < |rest|
      ensures o.time.instant < rest[j].time.instant
              || (o.time.instant == rest[j].time.instant && !Before(rest[j].symbol, o.symbol)) {
      NotAfterIsOrder(o, rest[j], o);
    }
  }

  lemma {:induction false} PlaceIsStable(o: Observation, sorted: seq<Observation>, instant: int, symbol: string)
    ensures Same(PlaceObservation(o, sorted), instant, symbol) == Same([o] + sorted, instant, symbol)
    decreases |sorted|
  {
    assert ([o] + sorted)[1..] == sorted;
    if sorted != [] && !NotAfter(o, sorted[0]) {
      PlaceIsStable(o, sorted[1..], instant, symbol);
      var placed := PlaceObservation(o, sorted);
      assert placed[0] == sorted[0] && placed[1..] == PlaceObservation(o, sorted[1..]);
      assert ([o] + sorted[1..])[1..] == sorted[1..];
    }
  }

  /** Observations are sorted by time and then by symbol, none is lost, and those of one symbol at one instant keep
      their order. */
  lemma {:induction false} SortIsStable(os: seq<Observation>, instant: int, symbol: string)
    ensures var sorted := SortObservations(os);
      && InTimeOrder(sorted) && multiset(sorted) == multiset(os)
      && Same(sorted, instant, symbol) == Same(os, instant, symbol)
    decreases |os|
  {
    if os != [] {
      SortIsStable(os[1..], instant, symbol);
      var rest := SortObservations(os[1..]);
      PlaceOrders(os[0], rest);
      PlaceKeepsElements(os[0], rest);
      PlaceIsStable(os[0], rest, instant, symbol);
      assert os == [os[0]] + os[1..] && ([os[0]] + rest)[1..] == rest;
    }
  }

  // ----- the checkpoint

  lemma HeaderIff(d: Dict, version: int, f: Fingerprints)
    ensures ParseHeader(d) == Some(Header(version, f)) <==> IsHeader(d, version, f)
  {
  }

  lemma CountsIff(d: Dict, s: RunState)
    ensures ParseCounts(d) == Some(Counts(s.next, s.proposals, s.approved, s.rejected, s.filled, s.pending))
      <==> IsCounts(d, s)
  {
    if PENDING_EXECUTION in d {
      assert ParsePending(d[PENDING_EXECUTION]) == Some(s.pending) <==> IsPending(d[PENDING_EXECUTION], s.pending);
    }
  }

  lemma JournalsIff(c: Scalars, d: Dict, paper: seq<JournalEvent>, events: seq<ReplayEvent>)
    ensures EventsAt(d, PAPER_JOURNAL, j => ParseJournalEvent(c, j)) == Some(paper)
      <==> IsJournal(d, PAPER_JOURNAL, paper, (j, e) => IsJournalEvent(c, j, e))
    ensures EventsAt(d, REPLAY_JOURNAL, j => ParseReplayEvent(c, j)) == Some(events)
      <==> IsJournal(d, REPLAY_JOURNAL, events, (j, e) => IsReplayEvent(c, j, e))
  {
    forall j, e ensures IsJournalEvent(c, j, e) <==> ParseJournalEvent(c, j) == Some(e) {
      JournalEventIff(c, j, e);
    }
    forall j, e ensures IsReplayEvent(c, j, e) <==> ParseReplayEvent(c, j) == Some(e) {
      ReplayEventIff(c, j, e);
    }
    JournalIff(d, PAPER_JOURNAL, paper, j => ParseJournalEvent(c, j), (j, e) => IsJournalEvent(c, j, e));
    JournalIff(d, REPLAY_JOURNAL, events, j => ParseReplayEvent(c, j), (j, e) => IsReplayEvent(c, j, e));
  }

  lemma AmountHistoriesIff(c: Scalars, d: Dict, curve: seq<EquityPoint>, history: seq<Portfolio>, lots: seq<Lot>)
    ensures ListAt(d, EQUITY_CURVE, j => ParseEquityPoint(c, j)) == Some(curve)
      <==> IsList(d, EQUITY_CURVE, curve, (j, p) => IsEquityPoint(c, j, p))
    ensures ListAt(d, PORTFOLIO_HISTORY, j => ParsePortfolio(c, j)) == Some(history)
      <==> IsList(d, PORTFOLIO_HISTORY, history, (j, f) => IsPortfolio(c, j, f))
    ensures ListAt(d, PURCHASE_LOTS, j => ParseLot(c, j)) == Some(lots)
      <==> IsList(d, PURCHASE_LOTS, lots, (j, lot) => IsLot(c, j, lot))
  {
    forall j, f ensures IsPortfolio(c, j, f) <==> ParsePortfolio(c, j) == Some(f) {
      PortfolioIff(c, j, f);
    }
    forall j, lot ensures IsLot(c, j, lot) <==> ParseLot(c, j) == Some(lot) {
      LotIff(c, j, lot);
    }
    ListIff(d, EQUITY_CURVE, curve, j => ParseEquityPoint(c, j), (j, p) => IsEquityPoint(c, j, p));
    ListIff(d, PORTFOLIO_HISTORY, history, j => ParsePortfolio(c, j), (j, f) => IsPortfolio(c, j, f));
    ListIff(d, PURCHASE_LOTS, lots, j => ParseLot(c, j), (j, lot) => IsLot(c, j, lot));
  }

  lemma ObservationsIff(c: Scalars, d: Dict, os: seq<Observation>)
    ensures (if MARKET_OBSERVATIONS !in d then os == []
             else var read := ListAt(d, MARKET_OBSERVATIONS, j => ParseObservation(c, j));
                  read.Some? && os == SortObservations(read.value))
      <==> AreObservations(c, d, os)
  {
    if MARKET_OBSERVATIONS in d {
      var read := ListAt(d, MARKET_OBSERVATIONS, j => ParseObservation(c, j));
      if read.Some? {
        ListedObservationsIff(c, d, read.value);
      }
      if AreObservations(c, d, os) {
        var listed: seq<Observation> :|
          IsList(d, MARKET_OBSERVATIONS, listed, (j, o) => IsObservation(c, j, o)) && os == SortObservations(listed);
        ListedObservationsIff(c, d, listed);
      }
    }
  }

  function HistoryOf(s: RunState): History {
    History(s.portfolio, s.paperJournal, s.events, s.curve, s.history, s.lots, s.observations)
  }

  lemma HistoryIff(c: Scalars, d: Dict, s: RunState)
    ensures ParseHistory(c, d) == Some(HistoryOf(s)) <==> IsHistory(c, d, s)
  {
    PortfolioIff(c, At(d, PORTFOLIO), s.portfolio);
    JournalsIff(c, d, s.paperJournal, s.events);
    AmountHistoriesIff(c, d, s.curve, s.history, s.lots);
    ObservationsIff(c, d, s.observations);
  }

  /** A value is read as a checkpoint exactly when its members spell that checkpoint, each under its own name, the
      observations up to their order; lots and observations must pass their constructors. */
  lemma ReadsExactly(c: Scalars, j: Json, cp: Checkpoint)
    ensures FromJson(c, j) == Some(cp) <==>
      && j.Obj? && IsHeader(j.fields, cp.schemaVersion, cp.fingerprints)
      && IsCounts(j.fields, cp.run) && IsHistory(c, j.fields, cp.run)
  {
    if j.Obj? {
      HeaderIff(j.fields, cp.schemaVersion, cp.fingerprints);
      CountsIff(j.fields, cp.run);
      HistoryIff(c, j.fields, cp.run);
    }
  }
}
