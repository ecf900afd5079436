/** Writing a replay checkpoint to JSON and reading it back. */
module CheckpointJson {
  import opened Wrappers
  import opened Text
  import opened SettlementCalendar
  import opened PurchaseLots
  import opened PaperTrading
  import opened Iteration
  import opened Backtest
  import BacktestBooks
  import BacktestRuns
  import FlatJson
  import opened JsonTree

  datatype Key =
    | SCHEMA_VERSION | DATASET_FINGERPRINT | RESPONSE_FINGERPRINT | INTENT_FINGERPRINT | CONFIG_FINGERPRINT
    | NEXT_CANDLE_INDEX | PORTFOLIO | PAPER_JOURNAL | REPLAY_JOURNAL | EQUITY_CURVE | PORTFOLIO_HISTORY | PURCHASE_LOTS
    | PENDING_EXECUTION | PROPOSALS | APPROVED_COUNT | REJECTED_COUNT | FILLED_COUNT | MARKET_OBSERVATIONS
    | EVENTS | PROPOSAL_JSON | COMPLIANCE_JSON
    | INITIAL_CASH | CASH | POSITIONS | REALIZED_PNL | UNREALIZED_PNL | EQUITY | TIMESTAMP
    | SYMBOL | QUANTITY | AVERAGE_COST | CURRENT_MARK | MARKET_VALUE
    | SEQUENCE | EVENT_TYPE | REQUEST_ID | MESSAGE | DETAILS | CANDLE_INDEX | EVENT_STATUS
    | PURCHASE_TIMESTAMP | FUNDING_SOURCE | FUNDING_SETTLEMENT_DATE | REMAINING_QUANTITY
    | OPEN | HIGH | LOW | CLOSE | VOLUME | BID | ASK | SESSION | MARKET_STATUS | OBSERVED_SLIPPAGE
    | VOLATILITY_REGIME | TREND_REGIME

  type Json = JsonTree.Tree<Key>

  type Dict = map<Key, Json>

  /** Text forms of the scalar types. */
  datatype Scalars = Scalars(
    decimals: FlatJson.Decimals,
    momentText: Moment -> string, readMoment: string -> Option<Moment>,
    kindText: EventType -> string, readKind: string -> Option<EventType>,
    statusText: EventStatus -> string, readStatus: string -> Option<EventStatus>,
    journalText: JournalEventType -> string, readJournal: string -> Option<JournalEventType>,
    fundingText: FundingSource -> string, readFunding: string -> Option<FundingSource>,
    readDate: string -> Option<Date>)
  {
    /** Numbers are never misread; ISO timestamps and enumeration values read back as what was written. */
    ghost predicate Faithful() {
      && decimals.Faithful()
      && (forall m: Moment :: readMoment(momentText(m)) == Some(m))
      && (forall k: EventType :: readKind(kindText(k)) == Some(k))
      && (forall s: EventStatus :: readStatus(statusText(s)) == Some(s))
      && (forall t: JournalEventType :: readJournal(journalText(t)) == Some(t))
      && (forall f: FundingSource :: readFunding(fundingText(f)) == Some(f))
    }
  }

  // ----- lists and scalars

  function PrintAll<T>(xs: seq<T>, print_: T -> Json): seq<Json> {
    seq(|xs|, i requires 0 <= i < |xs| => print_(xs[i]))
  }

  function ParseAll<T>(js: seq<Json>, parse: Json -> Option<T>): Option<seq<T>> {
    if js == [] then Some([])
    else
      match parse(js[0])
      case None => None
      case Some(x) =>
        match ParseAll(js[1..], parse)
        case None => None
        case Some(rest) => Some([x] + rest)
  }

  lemma {:induction false} ListRoundTrip<T>(xs: seq<T>, print_: T -> Json, parse: Json -> Option<T>)
    requires forall i :: 0 <= i < |xs| ==> parse(print_(xs[i])) == Some(xs[i])
    ensures ParseAll(PrintAll(xs, print_), parse) == Some(xs)
    decreases |xs|
  {
    if xs != [] {
      assert forall i :: 0 <= i < |xs[1..]| ==> xs[1..][i] == xs[i + 1];
      ListRoundTrip(xs[1..], print_, parse);
      assert [xs[0]] + xs[1..] == xs;
      assert PrintAll(xs, print_)[1..] == PrintAll(xs[1..], print_);
    }
  }

  function At(d: Dict, k: Key): Json {
    if k in d then d[k] else Null
  }

  function IntAt(d: Dict, k: Key): Option<int> {
    if At(d, k).Num? then Some(At(d, k).n) else None
  }

  function TextAt(d: Dict, k: Key): Option<string> {
    if At(d, k).Str? then Some(At(d, k).s) else None
  }

  function DecimalAt(c: Scalars, d: Dict, k: Key): Option<real> {
    if At(d, k).Str? then c.decimals.parse(At(d, k).s) else None
  }

  function MomentAt(c: Scalars, d: Dict, k: Key): Option<Moment> {
    if At(d, k).Str? then c.readMoment(At(d, k).s) else None
  }

  function ListAt<T>(d: Dict, k: Key, parse: Json -> Option<T>): Option<seq<T>> {
    if At(d, k).Arr? then ParseAll(At(d, k).items, parse) else None
  }

  /** A label that may be absent. */
  function LabelAt(d: Dict, k: Key): Option<Option<string>> {
    match At(d, k) case Null => Some(None) case Str(s) => Some(Some(s)) case _ => None
  }

  function SlippageAt(c: Scalars, d: Dict, k: Key): Option<Option<Unchecked>> {
    match At(d, k)
    case Null => Some(None)
    case Str(s) => if c.decimals.parse(s).Some? then Some(Some(Finite(c.decimals.parse(s).value))) else None
    case _ => None
  }

  function LabelJson(v: Option<string>): Json {
    if v.Some? then Str(v.value) else Null
  }

  function SlippageJson(c: Scalars, v: Option<Unchecked>): Json {
    match v
    case None => Null
    case Some(Finite(x)) => Str(c.decimals.print_(x))
    case Some(NotFinite) => Str("NaN")
  }

  predicate SlippageReads(c: Scalars, v: Option<Unchecked>) {
    v.Some? && v.value.Finite? ==> c.decimals.Reads(v.value.amount)
  }

  function PairJson(p: (string, string)): Json {
    Arr([Str(p.0), Str(p.1)])
  }

  function ParsePair(j: Json): Option<(string, string)> {
    if j.Arr? && |j.items| == 2 && j.items[0].Str? && j.items[1].Str? then Some((j.items[0].s, j.items[1].s)) else None
  }

  lemma DecimalReadsBack(c: Scalars, d: Dict, k: Key, x: real)
    requires c.Faithful() && c.decimals.Reads(x) && At(d, k) == Str(c.decimals.print_(x))
    ensures DecimalAt(c, d, k) == Some(x)
  {
  }

  lemma SlippageReadsBack(c: Scalars, d: Dict, k: Key, v: Option<Unchecked>)
    requires c.Faithful() && SlippageReads(c, v) && SlippageOk(v) && At(d, k) == SlippageJson(c, v)
    ensures SlippageAt(c, d, k) == Some(v)
  {
    if v.Some? {
      DecimalReadsBack(c, d, k, v.value.amount);
    }
  }

  lemma ListReadsBack<T>(d: Dict, k: Key, xs: seq<T>, print_: T -> Json, parse: Json -> Option<T>)
    requires At(d, k) == Arr(PrintAll(xs, print_)) && forall i :: 0 <= i < |xs| ==> parse(print_(xs[i])) == Some(xs[i])
    ensures ListAt(d, k, parse) == Some(xs)
  {
    ListRoundTrip(xs, print_, parse);
  }

  // ----- positions and portfolios

  function PositionJson(c: Scalars, p: Position): Json {
    Obj(map[SYMBOL := Str(p.symbol), QUANTITY := Str(c.decimals.print_(p.quantity)),
            AVERAGE_COST := Str(c.decimals.print_(p.averageCost)),
            CURRENT_MARK := Str(c.decimals.print_(p.mark)), MARKET_VALUE := Str(c.decimals.print_(p.marketValue)),
            UNREALIZED_PNL := Str(c.decimals.print_(p.unrealized))])
  }

  function ParsePosition(c: Scalars, j: Json): Option<Position> {
    if !j.Obj? then None else
    var d := j.fields;
    var symbol, quantity, cost := TextAt(d, SYMBOL), DecimalAt(c, d, QUANTITY), DecimalAt(c, d, AVERAGE_COST);
    var mark, value, pnl := DecimalAt(c, d, CURRENT_MARK), DecimalAt(c, d, MARKET_VALUE),
      DecimalAt(c, d, UNREALIZED_PNL);
    if symbol.Some? && quantity.Some? && cost.Some? && mark.Some? && value.Some? && pnl.Some?
    then Some(Position(symbol.value, quantity.value, cost.value, mark.value, value.value, pnl.value)) else None
  }

  predicate PositionReads(c: Scalars, p: Position) {
    c.decimals.Reads(p.quantity) && c.decimals.Reads(p.averageCost) && c.decimals.Reads(p.mark)
      && c.decimals.Reads(p.marketValue) && c.decimals.Reads(p.unrealized)
  }

  predicate PortfolioReads(c: Scalars, f: Portfolio) {
    && c.decimals.Reads(f.initialCash) && c.decimals.Reads(f.cash) && c.decimals.Reads(f.realized)
      && c.decimals.Reads(f.unrealized) && c.decimals.Reads(f.equity)
    && forall i :: 0 <= i < |f.positions| ==> PositionReads(c, f.positions[i])
  }

  lemma PositionReadsBack(c: Scalars, p: Position)
    requires c.Faithful() && PositionReads(c, p)
    ensures ParsePosition(c, PositionJson(c, p)) == Some(p)
  {
    var d := PositionJson(c, p).fields;
    DecimalReadsBack(c, d, QUANTITY, p.quantity);
    DecimalReadsBack(c, d, AVERAGE_COST, p.averageCost);
    DecimalReadsBack(c, d, CURRENT_MARK, p.mark);
    DecimalReadsBack(c, d, MARKET_VALUE, p.marketValue);
    DecimalReadsBack(c, d, UNREALIZED_PNL, p.unrealized);
  }

  function PortfolioJson(c: Scalars, f: Portfolio): Json {
    Obj(map[INITIAL_CASH := Str(c.decimals.print_(f.initialCash)), CASH := Str(c.decimals.print_(f.cash)),
            POSITIONS := Arr(PrintAll(f.positions, p => PositionJson(c, p))),
            REALIZED_PNL := Str(c.decimals.print_(f.realized)), UNREALIZED_PNL := Str(c.decimals.print_(f.unrealized)),
            EQUITY := Str(c.decimals.print_(f.equity)), TIMESTAMP := Str(c.momentText(f.time))])
  }

  function ParsePortfolio(c: Scalars, j: Json): Option<Portfolio> {
    if !j.Obj? then None else
    var d := j.fields;
    var initial, cash, positions := DecimalAt(c, d, INITIAL_CASH), DecimalAt(c, d, CASH),
      ListAt(d, POSITIONS, x => ParsePosition(c, x));
    var realized, pnl, equity := DecimalAt(c, d, REALIZED_PNL), DecimalAt(c, d, UNREALIZED_PNL),
      DecimalAt(c, d, EQUITY);
    var time := MomentAt(c, d, TIMESTAMP);
    if initial.Some? && cash.Some? && positions.Some? && realized.Some? && pnl.Some? && equity.Some? && time.Some?
    then Some(Portfolio(initial.value, cash.value, positions.value, realized.value, pnl.value, equity.value,
                        time.value))
    else None
  }

  lemma HeldPortfolioReadsBack(c: Scalars, d: Dict, f: Portfolio)
    requires c.Faithful() && PortfolioReads(c, f)
    requires At(d, INITIAL_CASH) == Str(c.decimals.print_(f.initialCash))
      && At(d, CASH) == Str(c.decimals.print_(f.cash))
    requires At(d, POSITIONS) == Arr(PrintAll(f.positions, p => PositionJson(c, p)))
    requires At(d, REALIZED_PNL) == Str(c.decimals.print_(f.realized))
      && At(d, UNREALIZED_PNL) == Str(c.decimals.print_(f.unrealized))
    requires At(d, EQUITY) == Str(c.decimals.print_(f.equity)) && At(d, TIMESTAMP) == Str(c.momentText(f.time))
    ensures ParsePortfolio(c, Obj(d)) == Some(f)
  {
    forall i | 0 <= i < |f.positions|
      ensures ParsePosition(c, PositionJson(c, f.positions[i])) == Some(f.positions[i]) {
      PositionReadsBack(c, f.positions[i]);
    }
    ListReadsBack(d, POSITIONS, f.positions, p => PositionJson(c, p), x => ParsePosition(c, x));
    DecimalReadsBack(c, d, INITIAL_CASH, f.initialCash);
    DecimalReadsBack(c, d, CASH, f.cash);
    DecimalReadsBack(c, d, REALIZED_PNL, f.realized);
    DecimalReadsBack(c, d, UNREALIZED_PNL, f.unrealized);
    DecimalReadsBack(c, d, EQUITY, f.equity);
  }

  lemma PortfolioReadsBack(c: Scalars, f: Portfolio)
    requires c.Faithful() && PortfolioReads(c, f)
    ensures ParsePortfolio(c, PortfolioJson(c, f)) == Some(f)
  {
    HeldPortfolioReadsBack(c, PortfolioJson(c, f).fields, f);
  }

  // ----- journals, curve and lots

  function JournalEventJson(c: Scalars, e: JournalEvent): Json {
    Obj(map[SEQUENCE := Num(e.sequence), EVENT_TYPE := Str(c.journalText(e.eventType)), REQUEST_ID := Str(e.requestId),
            TIMESTAMP := Str(c.momentText(e.time)), MESSAGE := Str(e.message),
            DETAILS := Arr(PrintAll(e.details, PairJson))])
  }

  function ParseJournalEvent(c: Scalars, j: Json): Option<JournalEvent> {
    if !j.Obj? then None else
    var d := j.fields;
    var sequence, kind, request := IntAt(d, SEQUENCE), TextAt(d, EVENT_TYPE), TextAt(d, REQUEST_ID);
    var time, message, details := MomentAt(c, d, TIMESTAMP), TextAt(d, MESSAGE), ListAt(d, DETAILS, ParsePair);
    if sequence.Some? && kind.Some? && c.readJournal(kind.value).Some? && request.Some? && time.Some? && message.Some?
      && details.Some?
    then Some(JournalEvent(sequence.value, c.readJournal(kind.value).value, request.value, time.value, message.value,
                           details.value))
    else None
  }

  lemma JournalEventReadsBack(c: Scalars, e: JournalEvent)
    requires c.Faithful()
    ensures ParseJournalEvent(c, JournalEventJson(c, e)) == Some(e)
  {
    ListReadsBack(JournalEventJson(c, e).fields, DETAILS, e.details, PairJson, ParsePair);
  }

  function ReplayEventJson(c: Scalars, e: ReplayEvent): Json {
    Obj(map[SEQUENCE := Num(e.sequence), CANDLE_INDEX := Num(e.candle), TIMESTAMP := Str(c.momentText(e.time)),
            EVENT_TYPE := Str(c.kindText(e.eventType)), EVENT_STATUS := Str(c.statusText(e.status)),
            DETAILS := Arr(PrintAll(e.details, PairJson))])
  }

  function ParseReplayEvent(c: Scalars, j: Json): Option<ReplayEvent> {
    if !j.Obj? then None else
    var d := j.fields;
    var sequence, candle, time := IntAt(d, SEQUENCE), IntAt(d, CANDLE_INDEX), MomentAt(c, d, TIMESTAMP);
    var kind, status, details := TextAt(d, EVENT_TYPE), TextAt(d, EVENT_STATUS), ListAt(d, DETAILS, ParsePair);
    if sequence.Some? && candle.Some? && time.Some? && kind.Some? && c.readKind(kind.value).Some?
       && status.Some? && c.readStatus(status.value).Some? && details.Some?
    then Some(ReplayEvent(sequence.value, candle.value, time.value, c.readKind(kind.value).value,
                          c.readStatus(status.value).value, details.value))
    else None
  }

  lemma ReplayEventReadsBack(c: Scalars, e: ReplayEvent)
    requires c.Faithful()
    ensures ParseReplayEvent(c, ReplayEventJson(c, e)) == Some(e)
  {
    ListReadsBack(ReplayEventJson(c, e).fields, DETAILS, e.details, PairJson, ParsePair);
  }

  function EquityPointJson(c: Scalars, p: EquityPoint): Json {
    Obj(map[TIMESTAMP := Str(c.momentText(p.time)), EQUITY := Str(c.decimals.print_(p.equity))])
  }

  function ParseEquityPoint(c: Scalars, j: Json): Option<EquityPoint> {
    if !j.Obj? then None else
    var time, equity := MomentAt(c, j.fields, TIMESTAMP), DecimalAt(c, j.fields, EQUITY);
    if time.Some? && equity.Some? then Some(EquityPoint(time.value, equity.value)) else None
  }

  lemma EquityPointReadsBack(c: Scalars, p: EquityPoint)
    requires c.Faithful() && c.decimals.Reads(p.equity)
    ensures ParseEquityPoint(c, EquityPointJson(c, p)) == Some(p)
  {
    DecimalReadsBack(c, EquityPointJson(c, p).fields, EQUITY, p.equity);
  }

  /** Only lots without a settlement date can be printed: a `date` is not a JSON value for the encoder. */
  function LotJson(c: Scalars, lot: Lot): Json {
    Obj(map[SYMBOL := Str(lot.symbol), QUANTITY := Str(c.decimals.print_(lot.quantity)),
            PURCHASE_TIMESTAMP := Str(c.momentText(lot.purchased)), FUNDING_SOURCE := Str(c.fundingText(lot.funding)),
            FUNDING_SETTLEMENT_DATE := Null, REMAINING_QUANTITY := Str(c.decimals.print_(lot.remaining))])
  }

  /** A settlement date that is null, empty or another false value counts as none. */
  function DateAt(c: Scalars, d: Dict, k: Key): Option<Option<Date>> {
    if k !in d then None
    else
      match d[k]
      case Null => Some(None)
      case Bool(b) => if b then None else Some(None)
      case Num(n) => if n == 0 then Some(None) else None
      case Arr(items) => if items == [] then Some(None) else None
      case Obj(fields) => if fields == map[] then Some(None) else None
      case Str(s) => if s == "" then Some(None) else if c.readDate(s).Some? then Some(c.readDate(s)) else None
  }

  /** The constructor of the lot runs again on what is read. */
  function ParseLot(c: Scalars, j: Json): Option<Lot> {
    if !j.Obj? then None else
    var d := j.fields;
    var symbol, quantity, time := TextAt(d, SYMBOL), DecimalAt(c, d, QUANTITY), MomentAt(c, d, PURCHASE_TIMESTAMP);
    var funding, date, remaining := TextAt(d, FUNDING_SOURCE), DateAt(c, d, FUNDING_SETTLEMENT_DATE),
      DecimalAt(c, d, REMAINING_QUANTITY);
    if symbol.Some? && quantity.Some? && time.Some? && funding.Some? && c.readFunding(funding.value).Some?
      && date.Some? && remaining.Some?
    then
      var lot := Lot(symbol.value, quantity.value, time.value, c.readFunding(funding.value).value, date.value,
                     remaining.value);
      if ValidLot(lot) then Some(lot) else None
    else None
  }

  predicate LotReads(c: Scalars, lot: Lot) {
    c.decimals.Reads(lot.quantity) && c.decimals.Reads(lot.remaining)
  }

  lemma LotReadsBack(c: Scalars, lot: Lot)
    requires c.Faithful() && LotReads(c, lot) && ValidLot(lot) && lot.settlementDate.None?
    ensures ParseLot(c, LotJson(c, lot)) == Some(lot)
  {
    DecimalReadsBack(c, LotJson(c, lot).fields, QUANTITY, lot.quantity);
    DecimalReadsBack(c, LotJson(c, lot).fields, REMAINING_QUANTITY, lot.remaining);
  }

  function PendingJson(p: Option<Pending>): Json {
    if p.None? then Null
    else Obj(map[PROPOSAL_JSON := Str(p.value.orderJson), COMPLIANCE_JSON := Str(p.value.decisionJson)])
  }

  function ParsePending(j: Json): Option<Option<Pending>> {
    match j
    case Null => Some(None)
    case Obj(d) =>
      if TextAt(d, PROPOSAL_JSON).Some? && TextAt(d, COMPLIANCE_JSON).Some?
      then Some(Some(Pending(TextAt(d, PROPOSAL_JSON).value, TextAt(d, COMPLIANCE_JSON).value))) else None
    case _ => None
  }

  // ----- observations

  function AmountsDict(c: Scalars, o: Observation): Dict {
    map[OPEN := Str(c.decimals.print_(o.open)), HIGH := Str(c.decimals.print_(o.high)),
        LOW := Str(c.decimals.print_(o.low)),
        CLOSE := Str(c.decimals.print_(o.close)), VOLUME := Str(c.decimals.print_(o.volume)),
        BID := Str(c.decimals.print_(o.bid)), ASK := Str(c.decimals.print_(o.ask))]
  }

  function LabelsDict(c: Scalars, o: Observation): Dict {
    map[TIMESTAMP := Str(c.momentText(o.time)), SYMBOL := Str(o.symbol), SESSION := LabelJson(o.session),
        MARKET_STATUS := LabelJson(o.marketStatus), OBSERVED_SLIPPAGE := SlippageJson(c, o.slippage),
        VOLATILITY_REGIME := LabelJson(o.volatility), TREND_REGIME := LabelJson(o.trend)]
  }

  function ObservationJson(c: Scalars, o: Observation): Json {
    Obj(AmountsDict(c, o) + LabelsDict(c, o))
  }

  lemma MergedAt(a: Dict, b: Dict, k: Key)
    ensures At(a + b, k) == if k in b then At(b, k) else At(a, k)
  {
  }

  /** The seven amounts of an observation. */
  datatype Amounts = Amounts(open: real, high: real, low: real, close: real, volume: real, bid: real, ask: real)

  function ParseAmounts(c: Scalars, d: Dict): Option<Amounts> {
    var open, high, low, close := DecimalAt(c, d, OPEN), DecimalAt(c, d, HIGH), DecimalAt(c, d, LOW),
      DecimalAt(c, d, CLOSE);
    var volume, bid, ask := DecimalAt(c, d, VOLUME), DecimalAt(c, d, BID), DecimalAt(c, d, ASK);
    if open.Some? && high.Some? && low.Some? && close.Some? && volume.Some? && bid.Some? && ask.Some?
    then Some(Amounts(open.value, high.value, low.value, close.value, volume.value, bid.value, ask.value)) else None
  }

  /** Everything else in an observation. */
  datatype Labels = Labels(
    time: Moment, symbol: string, session: Option<string>, status: Option<string>, slippage: Option<Unchecked>,
    volatility: Option<string>, trend: Option<string>)

  function ParseLabels(c: Scalars, d: Dict): Option<Labels> {
    var time, symbol, session := MomentAt(c, d, TIMESTAMP), TextAt(d, SYMBOL), LabelAt(d, SESSION);
    var status, slippage := LabelAt(d, MARKET_STATUS), SlippageAt(c, d, OBSERVED_SLIPPAGE);
    var volatility, trend := LabelAt(d, VOLATILITY_REGIME), LabelAt(d, TREND_REGIME);
    if time.Some? && symbol.Some? && session.Some? && status.Some? && slippage.Some? && volatility.Some? && trend.Some?
    then Some(Labels(time.value, symbol.value, session.value, status.value, slippage.value, volatility.value,
                     trend.value))
    else None
  }

  /** The constructor of the observation runs again on what is read. */
  function ParseObservation(c: Scalars, j: Json): Option<Observation> {
    if !j.Obj? then None else
    var amounts, labels := ParseAmounts(c, j.fields), ParseLabels(c, j.fields);
    if amounts.None? || labels.None? then None else
    var m, l := amounts.value, labels.value;
    var o := Observation(l.time, l.symbol, m.open, m.high, m.low, m.close, m.volume, m.bid, m.ask,
                         l.session, l.status, l.slippage, l.volatility, l.trend);
    if ObservationOk(o) then Some(o) else None
  }

  predicate ObservationReads(c: Scalars, o: Observation) {
    && c.decimals.Reads(o.open) && c.decimals.Reads(o.high) && c.decimals.Reads(o.low) && c.decimals.Reads(o.close)
      && c.decimals.Reads(o.volume)
    && c.decimals.Reads(o.bid) && c.decimals.Reads(o.ask) && SlippageReads(c, o.slippage)
  }

  /** Both halves of the dictionary, as the reader finds them in the whole. */
  ghost predicate HoldsAmounts(c: Scalars, d: Dict, o: Observation) {
    && At(d, OPEN) == Str(c.decimals.print_(o.open)) && At(d, HIGH) == Str(c.decimals.print_(o.high))
    && At(d, LOW) == Str(c.decimals.print_(o.low)) && At(d, CLOSE) == Str(c.decimals.print_(o.close))
    && At(d, VOLUME) == Str(c.decimals.print_(o.volume))
    && At(d, BID) == Str(c.decimals.print_(o.bid)) && At(d, ASK) == Str(c.decimals.print_(o.ask))
  }

  ghost predicate HoldsLabels(c: Scalars, d: Dict, o: Observation) {
    && At(d, TIMESTAMP) == Str(c.momentText(o.time)) && At(d, SYMBOL) == Str(o.symbol)
    && At(d, SESSION) == LabelJson(o.session) && At(d, MARKET_STATUS) == LabelJson(o.marketStatus)
    && At(d, OBSERVED_SLIPPAGE) == SlippageJson(c, o.slippage)
    && At(d, VOLATILITY_REGIME) == LabelJson(o.volatility) && At(d, TREND_REGIME) == LabelJson(o.trend)
  }

  lemma AmountsReadBack(c: Scalars, d: Dict, o: Observation)
    requires c.Faithful() && ObservationReads(c, o) && HoldsAmounts(c, d, o)
    ensures ParseAmounts(c, d) == Some(Amounts(o.open, o.high, o.low, o.close, o.volume, o.bid, o.ask))
  {
    DecimalReadsBack(c, d, OPEN, o.open);
    DecimalReadsBack(c, d, HIGH, o.high);
    DecimalReadsBack(c, d, LOW, o.low);
    DecimalReadsBack(c, d, CLOSE, o.close);
    DecimalReadsBack(c, d, VOLUME, o.volume);
    DecimalReadsBack(c, d, BID, o.bid);
    DecimalReadsBack(c, d, ASK, o.ask);
  }

  lemma AmountsDictHolds(c: Scalars, o: Observation)
    ensures HoldsAmounts(c, AmountsDict(c, o), o)
  {
  }

  lemma LabelsDictHolds(c: Scalars, o: Observation)
    ensures HoldsLabels(c, LabelsDict(c, o), o)
  {
  }

  predicate LabelKey(k: Key) {
    || k.TIMESTAMP? || k.SYMBOL? || k.SESSION? || k.MARKET_STATUS? || k.OBSERVED_SLIPPAGE?
    || k.VOLATILITY_REGIME? || k.TREND_REGIME?
  }

  /** Keys of one half are not keys of the other. */
  lemma LabelKeys(c: Scalars, o: Observation, k: Key)
    ensures k in LabelsDict(c, o) <==> LabelKey(k)
  {
  }

  lemma MergedHoldsAmounts(c: Scalars, o: Observation, a: Dict, b: Dict)
    requires HoldsAmounts(c, a, o) && forall k :: k in b ==> LabelKey(k)
    ensures HoldsAmounts(c, a + b, o)
  {
    MergedAt(a, b, OPEN);
    MergedAt(a, b, HIGH);
    MergedAt(a, b, LOW);
    MergedAt(a, b, CLOSE);
    MergedAt(a, b, VOLUME);
    MergedAt(a, b, BID);
    MergedAt(a, b, ASK);
  }

  lemma MergedHoldsLabels(c: Scalars, o: Observation, a: Dict, b: Dict)
    requires HoldsLabels(c, b, o) && forall k :: LabelKey(k) ==> k in b
    ensures HoldsLabels(c, a + b, o)
  {
    MergedAt(a, b, TIMESTAMP);
    MergedAt(a, b, SYMBOL);
    MergedAt(a, b, SESSION);
    MergedAt(a, b, MARKET_STATUS);
    MergedAt(a, b, OBSERVED_SLIPPAGE);
    MergedAt(a, b, VOLATILITY_REGIME);
    MergedAt(a, b, TREND_REGIME);
  }

  lemma LabelsReadBack(c: Scalars, d: Dict, o: Observation)
    requires c.Faithful() && SlippageReads(c, o.slippage) && SlippageOk(o.slippage) && HoldsLabels(c, d, o)
    ensures ParseLabels(c, d)
         == Some(Labels(o.time, o.symbol, o.session, o.marketStatus, o.slippage, o.volatility, o.trend))
  {
    SlippageReadsBack(c, d, OBSERVED_SLIPPAGE, o.slippage);
  }

  lemma MergedReadsBack(c: Scalars, o: Observation, a: Dict, b: Dict)
    requires c.Faithful() && ObservationReads(c, o) && ObservationOk(o) && HoldsAmounts(c, a, o) && HoldsLabels(c, b, o)
    requires forall k :: k in b <==> LabelKey(k)
    ensures ParseObservation(c, Obj(a + b)) == Some(o)
  {
    MergedHoldsAmounts(c, o, a, b);
    MergedHoldsLabels(c, o, a, b);
    AmountsReadBack(c, a + b, o);
    LabelsReadBack(c, a + b, o);
  }

  lemma ObservationReadsBack(c: Scalars, o: Observation)
    requires c.Faithful() && ObservationReads(c, o) && ObservationOk(o)
    ensures ParseObservation(c, ObservationJson(c, o)) == Some(o)
  {
    AmountsDictHolds(c, o);
    LabelsDictHolds(c, o);
    forall k ensures k in LabelsDict(c, o) <==> LabelKey(k) {
      LabelKeys(c, o, k);
    }
    MergedReadsBack(c, o, AmountsDict(c, o), LabelsDict(c, o));
  }

  // ----- the checkpoint

  function HeaderDict(cp: Checkpoint): Dict {
    map[SCHEMA_VERSION := Num(cp.schemaVersion), DATASET_FINGERPRINT := Str(cp.fingerprints.dataset),
        RESPONSE_FINGERPRINT := Str(cp.fingerprints.responses), INTENT_FINGERPRINT := Str(cp.fingerprints.intents),
        CONFIG_FINGERPRINT := Str(cp.fingerprints.config)]
  }

  function CountsDict(s: RunState): Dict {
    map[NEXT_CANDLE_INDEX := Num(s.next), PROPOSALS := Num(s.proposals), APPROVED_COUNT := Num(s.approved),
        REJECTED_COUNT := Num(s.rejected), FILLED_COUNT := Num(s.filled), PENDING_EXECUTION := PendingJson(s.pending)]
  }

  function JournalJson(events: seq<Json>): Json {
    Obj(map[EVENTS := Arr(events)])
  }

  function HistoryDict(c: Scalars, s: RunState): Dict {
    map[PORTFOLIO := PortfolioJson(c, s.portfolio),
        PAPER_JOURNAL := JournalJson(PrintAll(s.paperJournal, e => JournalEventJson(c, e))),
        REPLAY_JOURNAL := JournalJson(PrintAll(s.events, e => ReplayEventJson(c, e))),
        EQUITY_CURVE := Arr(PrintAll(s.curve, p => EquityPointJson(c, p))),
        PORTFOLIO_HISTORY := Arr(PrintAll(s.history, f => PortfolioJson(c, f))),
        PURCHASE_LOTS := Arr(PrintAll(s.lots, lot => LotJson(c, lot))),
        MARKET_OBSERVATIONS := Arr(PrintAll(s.observations, o => ObservationJson(c, o)))]
  }

  predicate NoSettlementDates(lots: seq<Lot>) {
    forall i :: 0 <= i < |lots| ==> lots[i].settlementDate.None?
  }

  /** None where the encoder raises TypeError, on a lot that carries a settlement date. */
  function ToJson(c: Scalars, cp: Checkpoint): Option<Json> {
    if NoSettlementDates(cp.run.lots) then Some(Obj(HeaderDict(cp) + CountsDict(cp.run) + HistoryDict(c, cp.run)))
    else None
  }

  datatype Header = Header(schemaVersion: int, fingerprints: Fingerprints)

  function ParseHeader(d: Dict): Option<Header> {
    var version, dataset, responses := IntAt(d, SCHEMA_VERSION), TextAt(d, DATASET_FINGERPRINT),
      TextAt(d, RESPONSE_FINGERPRINT);
    var intents, config := TextAt(d, INTENT_FINGERPRINT), TextAt(d, CONFIG_FINGERPRINT);
    if version.Some? && dataset.Some? && responses.Some? && intents.Some? && config.Some?
    then Some(Header(version.value, Fingerprints(dataset.value, responses.value, intents.value, config.value)))
    else None
  }

  datatype Counts = Counts(next: int, proposals: int, approved: int, rejected: int, filled: int,
                           pending: Option<Pending>)

  function ParseCounts(d: Dict): Option<Counts> {
    var next, proposals, approved := IntAt(d, NEXT_CANDLE_INDEX), IntAt(d, PROPOSALS), IntAt(d, APPROVED_COUNT);
    var rejected, filled := IntAt(d, REJECTED_COUNT), IntAt(d, FILLED_COUNT);
    if next.Some? && proposals.Some? && approved.Some? && rejected.Some? && filled.Some?
       && PENDING_EXECUTION in d && ParsePending(d[PENDING_EXECUTION]).Some?
    then Some(Counts(next.value, proposals.value, approved.value, rejected.value, filled.value,
                     ParsePending(d[PENDING_EXECUTION]).value))
    else None
  }

  datatype History = History(
    portfolio: Portfolio, paperJournal: seq<JournalEvent>, events: seq<ReplayEvent>, curve: seq<EquityPoint>,
    history: seq<Portfolio>, lots: seq<Lot>, observations: seq<Observation>)

  function EventsAt<T>(d: Dict, k: Key, parse: Json -> Option<T>): Option<seq<T>> {
    if At(d, k).Obj? then ListAt(At(d, k).fields, EVENTS, parse) else None
  }

  /** Observations may be missing from an older file; they are sorted again after reading. */
  function ParseHistory(c: Scalars, d: Dict): Option<History> {
    var portfolio := ParsePortfolio(c, At(d, PORTFOLIO));
    var paper := EventsAt(d, PAPER_JOURNAL, j => ParseJournalEvent(c, j));
    var events := EventsAt(d, REPLAY_JOURNAL, j => ParseReplayEvent(c, j));
    var curve := ListAt(d, EQUITY_CURVE, j => ParseEquityPoint(c, j));
    var history := ListAt(d, PORTFOLIO_HISTORY, j => ParsePortfolio(c, j));
    var lots := ListAt(d, PURCHASE_LOTS, j => ParseLot(c, j));
    var observations :=
      if MARKET_OBSERVATIONS in d then ListAt(d, MARKET_OBSERVATIONS, j => ParseObservation(c, j)) else Some([]);
    if portfolio.Some? && paper.Some? && events.Some? && curve.Some? && history.Some? && lots.Some?
      && observations.Some?
    then Some(History(portfolio.value, paper.value, events.value, curve.value, history.value, lots.value,
                      SortObservations(observations.value)))
    else None
  }

  function FromJson(c: Scalars, j: Json): Option<Checkpoint> {
    if !j.Obj? then None else
    var header, counts, h := ParseHeader(j.fields), ParseCounts(j.fields), ParseHistory(c, j.fields);
    if header.None? || counts.None? || h.None? then None else
    var n, y := counts.value, h.value;
    Some(Checkpoint(header.value.schemaVersion, header.value.fingerprints,
      RunState(n.next, y.portfolio, y.paperJournal, y.events, y.curve, y.history, y.lots, n.pending,
               n.proposals, n.approved, n.rejected, n.filled, y.observations)))
  }

  // ----- the checkpoint reads back

  /** `d` shows, under the keys of `part`, exactly `part`. */
  ghost predicate Shows(d: Dict, part: Dict) {
    forall k {:trigger d[k]} {:trigger part[k]} :: k in part ==> k in d && d[k] == part[k]
  }

  lemma HeaderReadsBack(d: Dict, cp: Checkpoint)
    requires Shows(d, HeaderDict(cp))
    ensures ParseHeader(d) == Some(Header(cp.schemaVersion, cp.fingerprints))
  {
    var h := HeaderDict(cp);
    assert At(d, SCHEMA_VERSION) == h[SCHEMA_VERSION] && At(d, DATASET_FINGERPRINT) == h[DATASET_FINGERPRINT];
    assert At(d, RESPONSE_FINGERPRINT) == h[RESPONSE_FINGERPRINT] && At(d, INTENT_FINGERPRINT) == h[INTENT_FINGERPRINT];
    assert At(d, CONFIG_FINGERPRINT) == h[CONFIG_FINGERPRINT];
  }

  lemma CountsReadBack(d: Dict, s: RunState)
    requires Shows(d, CountsDict(s))
    ensures ParseCounts(d) == Some(Counts(s.next, s.proposals, s.approved, s.rejected, s.filled, s.pending))
  {
    var n := CountsDict(s);
    assert At(d, NEXT_CANDLE_INDEX) == n[NEXT_CANDLE_INDEX] && At(d, PROPOSALS) == n[PROPOSALS];
    assert At(d, APPROVED_COUNT) == n[APPROVED_COUNT] && At(d, REJECTED_COUNT) == n[REJECTED_COUNT];
    assert At(d, FILLED_COUNT) == n[FILLED_COUNT] && At(d, PENDING_EXECUTION) == n[PENDING_EXECUTION];
  }

  /** What printing cannot lose: valid undated lots, and valid observations in time order. */
  ghost predicate Printable(s: RunState) {
    && ValidLots(s.lots) && NoSettlementDates(s.lots)
    && (forall i :: 0 <= i < |s.observations| ==> ObservationOk(s.observations[i])) && Ascending(s.observations)
  }

  /** Every amount in the run's state is one that its text can carry. */
  predicate AmountsRead(c: Scalars, s: RunState) {
    && PortfolioReads(c, s.portfolio)
    && (forall i :: 0 <= i < |s.history| ==> PortfolioReads(c, s.history[i]))
    && (forall i :: 0 <= i < |s.curve| ==> c.decimals.Reads(s.curve[i].equity))
    && (forall i :: 0 <= i < |s.lots| ==> LotReads(c, s.lots[i]))
    && (forall i :: 0 <= i < |s.observations| ==> ObservationReads(c, s.observations[i]))
  }

  lemma JournalsReadBack(c: Scalars, d: Dict, s: RunState)
    requires c.Faithful()
    requires At(d, PAPER_JOURNAL) == JournalJson(PrintAll(s.paperJournal, e => JournalEventJson(c, e)))
    requires At(d, REPLAY_JOURNAL) == JournalJson(PrintAll(s.events, e => ReplayEventJson(c, e)))
    ensures EventsAt(d, PAPER_JOURNAL, j => ParseJournalEvent(c, j)) == Some(s.paperJournal)
    ensures EventsAt(d, REPLAY_JOURNAL, j => ParseReplayEvent(c, j)) == Some(s.events)
  {
    forall i | 0 <= i < |s.paperJournal|
      ensures ParseJournalEvent(c, JournalEventJson(c, s.paperJournal[i])) == Some(s.paperJournal[i]) {
      JournalEventReadsBack(c, s.paperJournal[i]);
    }
    ListReadsBack(At(d, PAPER_JOURNAL).fields, EVENTS, s.paperJournal, e => JournalEventJson(c, e),
                  j => ParseJournalEvent(c, j));
    forall i | 0 <= i < |s.events| ensures ParseReplayEvent(c, ReplayEventJson(c, s.events[i])) == Some(s.events[i]) {
      ReplayEventReadsBack(c, s.events[i]);
    }
    ListReadsBack(At(d, REPLAY_JOURNAL).fields, EVENTS, s.events, e => ReplayEventJson(c, e),
                  j => ParseReplayEvent(c, j));
  }

  lemma AmountHistoriesReadBack(c: Scalars, d: Dict, s: RunState)
    requires c.Faithful() && AmountsRead(c, s)
    requires At(d, EQUITY_CURVE) == Arr(PrintAll(s.curve, p => EquityPointJson(c, p)))
    requires At(d, PORTFOLIO_HISTORY) == Arr(PrintAll(s.history, f => PortfolioJson(c, f)))
    ensures ListAt(d, EQUITY_CURVE, j => ParseEquityPoint(c, j)) == Some(s.curve)
    ensures ListAt(d, PORTFOLIO_HISTORY, j => ParsePortfolio(c, j)) == Some(s.history)
  {
    forall i | 0 <= i < |s.curve| ensures ParseEquityPoint(c, EquityPointJson(c, s.curve[i])) == Some(s.curve[i]) {
      EquityPointReadsBack(c, s.curve[i]);
    }
    ListReadsBack(d, EQUITY_CURVE, s.curve, p => EquityPointJson(c, p), j => ParseEquityPoint(c, j));
    forall i | 0 <= i < |s.history| ensures ParsePortfolio(c, PortfolioJson(c, s.history[i])) == Some(s.history[i]) {
      PortfolioReadsBack(c, s.history[i]);
    }
    ListReadsBack(d, PORTFOLIO_HISTORY, s.history, f => PortfolioJson(c, f), j => ParsePortfolio(c, j));
  }

  lemma LotsAndObservationsReadBack(c: Scalars, d: Dict, s: RunState)
    requires c.Faithful() && AmountsRead(c, s) && Printable(s)
    requires At(d, PURCHASE_LOTS) == Arr(PrintAll(s.lots, lot => LotJson(c, lot)))
    requires At(d, MARKET_OBSERVATIONS) == Arr(PrintAll(s.observations, o => ObservationJson(c, o)))
    ensures ListAt(d, PURCHASE_LOTS, j => ParseLot(c, j)) == Some(s.lots)
    ensures ListAt(d, MARKET_OBSERVATIONS, j => ParseObservation(c, j)) == Some(s.observations)
  {
    forall i | 0 <= i < |s.lots| ensures ParseLot(c, LotJson(c, s.lots[i])) == Some(s.lots[i]) {
      LotReadsBack(c, s.lots[i]);
    }
    ListReadsBack(d, PURCHASE_LOTS, s.lots, lot => LotJson(c, lot), j => ParseLot(c, j));
    forall i | 0 <= i < |s.observations|
      ensures ParseObservation(c, ObservationJson(c, s.observations[i])) == Some(s.observations[i]) {
      ObservationReadsBack(c, s.observations[i]);
    }
    ListReadsBack(d, MARKET_OBSERVATIONS, s.observations, o => ObservationJson(c, o), j => ParseObservation(c, j));
  }

  lemma HistoryShown(c: Scalars, d: Dict, s: RunState)
    requires Shows(d, HistoryDict(c, s))
    ensures At(d, PORTFOLIO) == PortfolioJson(c, s.portfolio)
    ensures At(d, PAPER_JOURNAL) == JournalJson(PrintAll(s.paperJournal, e => JournalEventJson(c, e)))
    ensures At(d, REPLAY_JOURNAL) == JournalJson(PrintAll(s.events, e => ReplayEventJson(c, e)))
    ensures At(d, EQUITY_CURVE) == Arr(PrintAll(s.curve, p => EquityPointJson(c, p)))
    ensures At(d, PORTFOLIO_HISTORY) == Arr(PrintAll(s.history, f => PortfolioJson(c, f)))
    ensures At(d, PURCHASE_LOTS) == Arr(PrintAll(s.lots, lot => LotJson(c, lot)))
    ensures At(d, MARKET_OBSERVATIONS) == Arr(PrintAll(s.observations, o => ObservationJson(c, o)))
  {
    var h := HistoryDict(c, s);
    assert At(d, PORTFOLIO) == h[PORTFOLIO] && At(d, PAPER_JOURNAL) == h[PAPER_JOURNAL];
    assert At(d, REPLAY_JOURNAL) == h[REPLAY_JOURNAL] && At(d, EQUITY_CURVE) == h[EQUITY_CURVE];
    assert At(d, PORTFOLIO_HISTORY) == h[PORTFOLIO_HISTORY] && At(d, PURCHASE_LOTS) == h[PURCHASE_LOTS];
    assert At(d, MARKET_OBSERVATIONS) == h[MARKET_OBSERVATIONS];
  }

  lemma HistoryReadsBack(c: Scalars, d: Dict, s: RunState)
    requires c.Faithful() && AmountsRead(c, s) && Printable(s) && Shows(d, HistoryDict(c, s))
    ensures ParseHistory(c, d) ==
      Some(History(s.portfolio, s.paperJournal, s.events, s.curve, s.history, s.lots, s.observations))
  {
    HistoryShown(c, d, s);
    PortfolioReadsBack(c, s.portfolio);
    JournalsReadBack(c, d, s);
    AmountHistoriesReadBack(c, d, s);
    LotsAndObservationsReadBack(c, d, s);
    SortIsIdentity(s.observations);
  }

  predicate HeaderKey(k: Key) {
    k.SCHEMA_VERSION? || k.DATASET_FINGERPRINT? || k.RESPONSE_FINGERPRINT? || k.INTENT_FINGERPRINT?
      || k.CONFIG_FINGERPRINT?
  }

  predicate CountsKey(k: Key) {
    k.NEXT_CANDLE_INDEX? || k.PROPOSALS? || k.APPROVED_COUNT? || k.REJECTED_COUNT? || k.FILLED_COUNT?
      || k.PENDING_EXECUTION?
  }

  predicate HistoryKey(k: Key) {
    k.PORTFOLIO? || k.PAPER_JOURNAL? || k.REPLAY_JOURNAL? || k.EQUITY_CURVE? || k.PORTFOLIO_HISTORY? || k.PURCHASE_LOTS?
    || k.MARKET_OBSERVATIONS?
  }

  lemma PartKeys(cp: Checkpoint, k: Key)
    ensures k in HeaderDict(cp) ==> HeaderKey(k)
    ensures k in CountsDict(cp.run) ==> CountsKey(k)
  {
  }

  lemma HistoryKeys(c: Scalars, s: RunState, k: Key)
    ensures k in HistoryDict(c, s) ==> HistoryKey(k)
  {
  }

  /** Merging keeps the right part, and of the left part what the right one does not name. */
  lemma MergeShows(a: Dict, b: Dict, part: Dict)
    requires Shows(a, part) && forall k :: k in part ==> k !in b
    ensures Shows(a + b, part) && Shows(a + b, b)
  {
  }

  lemma PartsShow(h: Dict, n: Dict, y: Dict)
    requires forall k :: k in h ==> HeaderKey(k)
    requires forall k :: k in n ==> CountsKey(k)
    requires forall k :: k in y ==> HistoryKey(k)
    ensures Shows(h + n + y, h) && Shows(h + n + y, n) && Shows(h + n + y, y)
  {
    MergeShows(h, n, h);
    MergeShows(h + n, y, h);
    MergeShows(h + n, y, n);
  }

  /** The three groups of members share no name, so the whole object shows each of them. */
  lemma WholeShowsParts(c: Scalars, cp: Checkpoint)
    ensures var d := HeaderDict(cp) + CountsDict(cp.run) + HistoryDict(c, cp.run);
      Shows(d, HeaderDict(cp)) && Shows(d, CountsDict(cp.run)) && Shows(d, HistoryDict(c, cp.run))
  {
    forall k
      ensures k in HeaderDict(cp) ==> HeaderKey(k)
      ensures k in CountsDict(cp.run) ==> CountsKey(k)
      ensures k in HistoryDict(c, cp.run) ==> HistoryKey(k)
    {
      PartKeys(cp, k);
      HistoryKeys(c, cp.run, k);
    }
    PartsShow(HeaderDict(cp), CountsDict(cp.run), HistoryDict(c, cp.run));
  }

  /** A printable checkpoint survives JSON unchanged. */
  lemma CheckpointRoundTrip(c: Scalars, cp: Checkpoint)
    requires c.Faithful() && AmountsRead(c, cp.run) && Printable(cp.run)
    ensures ToJson(c, cp).Some? && FromJson(c, ToJson(c, cp).value) == Some(cp)
  {
    var d := HeaderDict(cp) + CountsDict(cp.run) + HistoryDict(c, cp.run);
    WholeShowsParts(c, cp);
    HeaderReadsBack(d, cp);
    CountsReadBack(d, cp.run);
    HistoryReadsBack(c, d, cp.run);
  }

  // ----- every reachable checkpoint is printable

  /** One observation for each candle so far, in candle order. */
  ghost predicate ObservationsAre(inp: Inputs, s: RunState, n: nat)
    requires n <= |inp.frames|
  {
    && |s.observations| == n
    && forall i :: 0 <= i < n ==> s.observations[i] == ObservationOf(inp.frames[i]) && ObservationOk(s.observations[i])
  }

  lemma ObservationsAscend(inp: Inputs, n: nat, os: seq<Observation>)
    requires ValidFrames(inp.frames) && |os| == n <= |inp.frames|
    requires forall i :: 0 <= i < n ==> os[i] == ObservationOf(inp.frames[i])
    ensures Ascending(os)
  {
    forall i, j | 0 <= i < j < |os| ensures os[i].time.instant < os[j].time.instant {
      CloseTimesIncrease(Normalize(inp.frames[0].candle.symbol), inp.frames, i, j);
    }
  }

  lemma ObserveAppends(inp: Inputs, s: RunState, index: nat)
    requires ValidFrames(inp.frames) && index < |inp.frames| && ObservationsAre(inp, s, index)
      && Observe(inp, s, index).Some?
    ensures ObservationsAre(inp, Observe(inp, s, index).value, index + 1)
  {
    var os := s.observations + [ObservationOf(inp.frames[index])];
    ObservationsAscend(inp, index + 1, os);
    SortIsIdentity(os);
  }

  lemma StepKeepsOtherObservations(c: Engine, inp: Inputs, s: RunState, index: nat)
    requires index < |inp.frames| && Step(c, inp, s, index).Some?
    ensures Observe(inp, s, index).Some?
      && Step(c, inp, s, index).value.observations == Observe(inp, s, index).value.observations
  {
  }

  ghost function Observed(inp: Inputs): (RunState, nat) -> bool {
    (s: RunState, n: nat) => n <= |inp.frames| && ObservationsAre(inp, s, n)
  }

  lemma StepObserves(c: Engine, inp: Inputs, s: RunState, index: nat)
    requires ValidFrames(inp.frames)
    ensures KeepsAt(StepOf(c, inp), Observed(inp), s, index)
  {
    if index < |inp.frames| && ObservationsAre(inp, s, index) && Step(c, inp, s, index).Some? {
      StepKeepsOtherObservations(c, inp, s, index);
      ObserveAppends(inp, s, index);
    }
  }

  lemma RunObserves(c: Engine, inp: Inputs, s: RunState, first: nat, stop: nat)
    requires ValidFrames(inp.frames) && first <= stop <= |inp.frames| && ObservationsAre(inp, s, first)
    requires Iterate(StepOf(c, inp), s, first, stop).Some?
    ensures ObservationsAre(inp, Iterate(StepOf(c, inp), s, first, stop).value, stop)
  {
    forall x, i: nat ensures KeepsAt(StepOf(c, inp), Observed(inp), x, i) {
      StepObserves(c, inp, x, i);
    }
    IterateKeeps(StepOf(c, inp), Observed(inp), s, first, stop);
  }

  /** After every fresh run the market observations are those of the candles so far, one each, in order, with the
      candle's own prices and volume, the quote, and the labels of the frame. */
  lemma ObservationsRecordCandles(c: Engine, inp: Inputs, stop: int, i: nat)
    requires RunUntil(c, inp, None, stop).Some? && i < stop
    ensures var os := RunUntil(c, inp, None, stop).value.run.observations;
      && |os| == stop
      && var o, f, k := os[i], inp.frames[i], inp.frames[i].candle;
         && o.time == k.closeTime && o.symbol == Upper(k.symbol)
         && o.open == k.open && o.high == k.high && o.low == k.low && o.close == k.close && o.volume == k.volume
         && o.bid == f.bid && o.ask == f.ask && o.session == f.session && o.marketStatus == f.marketState.status
         && o.slippage == f.slippage && o.volatility == f.volatility && o.trend == f.trend
  {
    RunObserves(c, inp, Initial(inp).value, 0, stop);
  }

  /** Every checkpoint that a fresh run reaches can be written, and reads back as itself if its amounts are
      numbers that decimal text carries. */
  lemma ReachableCheckpointsRoundTrip(c: Engine, scalars: Scalars, inp: Inputs, stop: int)
    requires c.Faithful() && scalars.Faithful() && RunUntil(c, inp, None, stop).Some?
    ensures var cp := RunUntil(c, inp, None, stop).value;
      ToJson(scalars, cp).Some?
        && (AmountsRead(scalars, cp.run) ==> FromJson(scalars, ToJson(scalars, cp).value) == Some(cp))
  {
    var cp := RunUntil(c, inp, None, stop).value;
    BacktestBooks.BooksBalanceThroughoutRun(c, inp, stop);
    RunObserves(c, inp, Initial(inp).value, 0, stop);
    ObservationsAscend(inp, stop, cp.run.observations);
    if AmountsRead(scalars, cp.run) {
      CheckpointRoundTrip(scalars, cp);
    }
  }

  /** A run that is paused, written to JSON, read back and resumed is the uninterrupted run. */
  lemma SerializedPauseResume(c: Engine, scalars: Scalars, inp: Inputs, j: int, k: int)
    requires c.Faithful() && scalars.Faithful() && 0 <= j <= k <= |inp.frames|
    ensures RunUntil(c, inp, None, j).None? ==> RunUntil(c, inp, None, k).None?
    ensures RunUntil(c, inp, None, j).Some? && AmountsRead(scalars, RunUntil(c, inp, None, j).value.run) ==>
      var file := ToJson(scalars, RunUntil(c, inp, None, j).value);
      && file.Some? && FromJson(scalars, file.value).Some?
      && RunUntil(c, inp, FromJson(scalars, file.value), k) == RunUntil(c, inp, None, k)
  {
    BacktestRuns.PauseResume(c, inp, None, j, k);
    if RunUntil(c, inp, None, j).Some? {
      ReachableCheckpointsRoundTrip(c, scalars, inp, j);
    }
  }
}
