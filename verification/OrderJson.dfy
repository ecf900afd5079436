/** The pending order as the JSON text that a checkpoint carries from one candle to the next. */
module OrderJson {
  import opened FlatJson
  import opened OrderTerms
  import opened PaperTrading
  import opened PurchaseLots
  import opened Wrappers

  datatype Field =
    | REQUEST_ID | SYMBOL | SIDE | ORDER_TYPE | QUANTITY | LIMIT_PRICE | STOP_PRICE
    | REQUESTED_SESSION | CREATED_TIMESTAMP

  type Doc = map<Field, Scalar>

  /** The JSON module on flat objects, and the text forms of numbers and timestamps. */
  datatype Platform = Platform(
    dumps: Doc -> string, loads: string -> Option<Doc>, decimals: Decimals,
    momentText: Moment -> string, readMoment: string -> Option<Moment>)
  {
    /** JSON and timestamps read back, and numbers are never misread. */
    ghost predicate Faithful() {
      && decimals.Faithful()
      && (forall d: Doc :: loads(dumps(d)) == Some(d))
      && (forall m: Moment :: readMoment(momentText(m)) == Some(m))
    }
  }

  predicate KnownSession(s: string) {
    s == "REGULAR" || s == "EXTENDED_HOURS"
  }

  function FieldScalar(t: Platform, p: Proposal, f: Field): Scalar {
    match f
    case REQUEST_ID => Text(p.requestId)
    case SYMBOL => Text(p.symbol)
    case SIDE => Text(SideText(p.side))
    case ORDER_TYPE => Text(OrderTypeText(p.orderType))
    case QUANTITY => Text(t.decimals.print_(p.quantity))
    case LIMIT_PRICE => t.decimals.Optional(p.limitPrice)
    case STOP_PRICE => t.decimals.Optional(p.stopPrice)
    case REQUESTED_SESSION => Text(p.session)
    case CREATED_TIMESTAMP => Text(t.momentText(p.created))
  }

  /** `_proposal_json`. */
  function ProposalJson(t: Platform, p: Proposal): string {
    t.dumps(map f: Field :: FieldScalar(t, p, f))
  }

  /** The key must be there; null and the empty text both mean no price. */
  function PriceAt(t: Platform, d: Doc, f: Field): Option<Option<real>> {
    if f in d && d[f] == Text("") then Some(None) else OptionalAt(t.decimals, d, f)
  }

  function ReadProposal(t: Platform, d: Doc): Option<Proposal> {
    var request, symbol, side, kind := TextAt(d, REQUEST_ID), TextAt(d, SYMBOL), TextAt(d, SIDE), TextAt(d, ORDER_TYPE);
    var quantity, session, created := TextAt(d, QUANTITY), TextAt(d, REQUESTED_SESSION), TextAt(d, CREATED_TIMESTAMP);
    var limitPrice, stopPrice := PriceAt(t, d, LIMIT_PRICE), PriceAt(t, d, STOP_PRICE);
    if request.Some? && symbol.Some? && side.Some? && ReadSide(side.value).Some? && kind.Some?
      && ReadOrderType(kind.value).Some?
       && quantity.Some? && t.decimals.parse(quantity.value).Some? && limitPrice.Some? && stopPrice.Some?
       && session.Some? && KnownSession(session.value) && created.Some? && t.readMoment(created.value).Some?
    then Some(Proposal(request.value, symbol.value, ReadSide(side.value).value, ReadOrderType(kind.value).value,
                       t.decimals.parse(quantity.value).value, limitPrice.value, stopPrice.value, session.value,
                       t.readMoment(created.value).value))
    else None
  }

  /** `_proposal_from_json`; None where it raises. */
  function ProposalFromJson(t: Platform, text: string): Option<Proposal> {
    match t.loads(text) case None => None case Some(d) => ReadProposal(t, d)
  }

  /** The amounts have decimal texts and the session is one that exists. */
  predicate Readable(t: Platform, p: Proposal) {
    t.decimals.Reads(p.quantity) && t.decimals.AllRead(p.limitPrice) && t.decimals.AllRead(p.stopPrice)
      && KnownSession(p.session)
  }

  ghost predicate HoldsTexts(t: Platform, d: Doc, p: Proposal) {
    && TextAt(d, REQUEST_ID) == Some(p.requestId) && TextAt(d, SYMBOL) == Some(p.symbol)
    && TextAt(d, SIDE) == Some(SideText(p.side)) && TextAt(d, ORDER_TYPE) == Some(OrderTypeText(p.orderType))
    && TextAt(d, QUANTITY) == Some(t.decimals.print_(p.quantity)) && TextAt(d, REQUESTED_SESSION) == Some(p.session)
    && TextAt(d, CREATED_TIMESTAMP) == Some(t.momentText(p.created))
  }

  lemma AssembleProposal(t: Platform, d: Doc, p: Proposal)
    requires t.Faithful() && HoldsTexts(t, d, p)
    requires PriceAt(t, d, LIMIT_PRICE) == if t.decimals.AllRead(p.limitPrice) then Some(p.limitPrice) else None
    requires PriceAt(t, d, STOP_PRICE) == if t.decimals.AllRead(p.stopPrice) then Some(p.stopPrice) else None
    ensures ReadProposal(t, d) == if Readable(t, p) then Some(p) else None
  {
    NumberRoundTrip(t.decimals, p.quantity);
    assert ReadSide(SideText(p.side)) == Some(p.side) && ReadOrderType(OrderTypeText(p.orderType)) == Some(p.orderType);
    assert t.readMoment(t.momentText(p.created)) == Some(p.created);
  }

  ghost predicate Prints(t: Platform, d: Doc, p: Proposal) {
    forall f {:trigger d[f]} {:trigger f in d} :: f in d && d[f] == FieldScalar(t, p, f)
  }

  lemma PrintedTexts(t: Platform, d: Doc, p: Proposal)
    requires Prints(t, d, p)
    ensures HoldsTexts(t, d, p)
    ensures LIMIT_PRICE in d && d[LIMIT_PRICE] == t.decimals.Optional(p.limitPrice)
    ensures STOP_PRICE in d && d[STOP_PRICE] == t.decimals.Optional(p.stopPrice)
  {
  }

  lemma PrintedReads(t: Platform, d: Doc, p: Proposal)
    requires t.Faithful() && Prints(t, d, p)
    ensures ReadProposal(t, d) == if Readable(t, p) then Some(p) else None
  {
    PrintedTexts(t, d, p);
    OptionalRoundTrip(t.decimals, d, LIMIT_PRICE, p.limitPrice);
    OptionalRoundTrip(t.decimals, d, STOP_PRICE, p.stopPrice);
    AssembleProposal(t, d, p);
  }

  /** A price is the text of one; null and the empty text are no price. */
  predicate IsPrice(t: Platform, d: Doc, f: Field, v: Option<real>) {
    if v.Some? then IsNumber(t.decimals, d, f, v.value) && d[f].text != "" else f in d && d[f] in {Null, Text("")}
  }

  predicate IsOrder(t: Platform, d: Doc, p: Proposal) {
    && IsText(d, REQUEST_ID, p.requestId) && IsText(d, SYMBOL, p.symbol)
    && IsText(d, SIDE, if p.side.BUY? then "BUY" else "SELL")
    && IsText(d, ORDER_TYPE, match p.orderType case MARKET => "MARKET" case LIMIT => "LIMIT" case STOP => "STOP"
                                               case STOP_LIMIT => "STOP_LIMIT")
    && IsNumber(t.decimals, d, QUANTITY, p.quantity)
    && IsPrice(t, d, LIMIT_PRICE, p.limitPrice) && IsPrice(t, d, STOP_PRICE, p.stopPrice)
    && IsText(d, REQUESTED_SESSION, p.session) && p.session in {"REGULAR", "EXTENDED_HOURS"}
    && CREATED_TIMESTAMP in d && d[CREATED_TIMESTAMP].Text?
    && t.readMoment(d[CREATED_TIMESTAMP].text) == Some(p.created)
  }

  lemma PriceIff(t: Platform, d: Doc, f: Field, v: Option<real>)
    ensures PriceAt(t, d, f) == Some(v) <==> IsPrice(t, d, f, v)
  {
  }

  /** A text is read as an order exactly when its members spell that order, each under its own name. */
  lemma ProposalReadsExactly(t: Platform, text: string, p: Proposal)
    ensures ProposalFromJson(t, text) == Some(p) <==> t.loads(text).Some? && IsOrder(t, t.loads(text).value, p)
  {
    if t.loads(text).Some? {
      PriceIff(t, t.loads(text).value, LIMIT_PRICE, p.limitPrice);
      PriceIff(t, t.loads(text).value, STOP_PRICE, p.stopPrice);
    }
  }

  /** The text of an order reads back as that order exactly when it is readable, and otherwise not at all. */
  lemma ProposalRoundTrip(t: Platform, p: Proposal)
    requires t.Faithful()
    ensures ProposalFromJson(t, ProposalJson(t, p)) == if Readable(t, p) then Some(p) else None
  {
    var d := map f: Field :: FieldScalar(t, p, f);
    assert t.loads(t.dumps(d)) == Some(d);
    PrintedReads(t, d, p);
  }
}
