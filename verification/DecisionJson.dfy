/** The compliance decision on a pending order, as the second JSON text that a checkpoint carries. */
module DecisionJson {
  import opened FlatJson
  import opened PaperTrading
  import opened Wrappers
  import Backtest
  import OrderJson

  datatype Field =
    | APPROVED | APPROVAL_REASON | REQUEST_ID | CHECKS_PASSED | CHECKS_FAILED | WARNINGS
    | MAXIMUM_COMPLIANT_QUANTITY | NORMALIZED_LIMIT_PRICE | NORMALIZED_STOP_PRICE | LOWER_VALID_TICK | UPPER_VALID_TICK

  type Doc = map<Field, Scalar>

  /** The JSON module on flat objects, and the text form of numbers. */
  datatype Platform = Platform(dumps: Doc -> string, loads: string -> Option<Doc>, decimals: Decimals) {
    ghost predicate Faithful() {
      decimals.Faithful() && forall d: Doc :: loads(dumps(d)) == Some(d)
    }
  }

  function FieldScalar(t: Platform, c: Compliance, f: Field): Scalar {
    match f
    case APPROVED => Flag(c.approved)
    case APPROVAL_REASON => Text(c.reason)
    case REQUEST_ID => Text(c.requestId)
    case CHECKS_PASSED => Texts(c.checksPassed)
    case CHECKS_FAILED => Texts(c.checksFailed)
    case WARNINGS => Texts(c.warnings)
    case MAXIMUM_COMPLIANT_QUANTITY => t.decimals.Optional(c.maximumQuantity)
    case NORMALIZED_LIMIT_PRICE => t.decimals.Optional(c.limitPrice)
    case NORMALIZED_STOP_PRICE => t.decimals.Optional(c.stopPrice)
    case LOWER_VALID_TICK => t.decimals.Optional(c.lowerTick)
    case UPPER_VALID_TICK => t.decimals.Optional(c.upperTick)
  }

  /** `json.dumps(decision.to_dict())`. */
  function DecisionText(t: Platform, c: Compliance): string {
    t.dumps(map f: Field :: FieldScalar(t, c, f))
  }

  function TextsAt(d: Doc, f: Field): Option<seq<string>> {
    if f in d && d[f].Texts? then Some(d[f].items) else None
  }

  datatype Numbers = Numbers(
    maximum: Option<real>, limit: Option<real>, stop: Option<real>, lower: Option<real>, upper: Option<real>)

  function ReadNumbers(t: Platform, d: Doc): Option<Numbers> {
    var maximum := OptionalAt(t.decimals, d, MAXIMUM_COMPLIANT_QUANTITY);
    var limit, stop := OptionalAt(t.decimals, d, NORMALIZED_LIMIT_PRICE),
      OptionalAt(t.decimals, d, NORMALIZED_STOP_PRICE);
    var lower := OptionalAt(t.decimals, d, LOWER_VALID_TICK);
    var upper := OptionalAt(t.decimals, d, UPPER_VALID_TICK);
    if maximum.Some? && limit.Some? && stop.Some? && lower.Some? && upper.Some?
    then Some(Numbers(maximum.value, limit.value, stop.value, lower.value, upper.value)) else None
  }

  function ReadDecision(t: Platform, d: Doc): Option<Compliance> {
    var reason, request, n := TextAt(d, APPROVAL_REASON), TextAt(d, REQUEST_ID), ReadNumbers(t, d);
    var passed, failed, warnings := TextsAt(d, CHECKS_PASSED), TextsAt(d, CHECKS_FAILED), TextsAt(d, WARNINGS);
    if APPROVED in d && d[APPROVED].Flag? && reason.Some? && request.Some?
       && passed.Some? && failed.Some? && warnings.Some? && n.Some?
    then Some(Compliance(d[APPROVED].b, reason.value, request.value, passed.value, failed.value, warnings.value,
                         n.value.maximum, n.value.limit, n.value.stop, n.value.lower, n.value.upper))
    else None
  }

  /** `_decision_from_json`; None where it raises. */
  function DecisionFromText(t: Platform, text: string): Option<Compliance> {
    match t.loads(text) case None => None case Some(d) => ReadDecision(t, d)
  }

  predicate Readable(t: Platform, c: Compliance) {
    && t.decimals.AllRead(c.maximumQuantity) && t.decimals.AllRead(c.limitPrice) && t.decimals.AllRead(c.stopPrice)
    && t.decimals.AllRead(c.lowerTick) && t.decimals.AllRead(c.upperTick)
  }

  lemma NumbersRoundTrip(t: Platform, d: Doc, c: Compliance)
    requires t.Faithful() && forall f :: f in d && d[f] == FieldScalar(t, c, f)
    ensures ReadNumbers(t, d) ==
      if Readable(t, c) then Some(Numbers(c.maximumQuantity, c.limitPrice, c.stopPrice, c.lowerTick, c.upperTick))
      else None
  {
    OptionalRoundTrip(t.decimals, d, MAXIMUM_COMPLIANT_QUANTITY, c.maximumQuantity);
    OptionalRoundTrip(t.decimals, d, NORMALIZED_LIMIT_PRICE, c.limitPrice);
    OptionalRoundTrip(t.decimals, d, NORMALIZED_STOP_PRICE, c.stopPrice);
    OptionalRoundTrip(t.decimals, d, LOWER_VALID_TICK, c.lowerTick);
    OptionalRoundTrip(t.decimals, d, UPPER_VALID_TICK, c.upperTick);
  }

  /** The member must be there; null is no number. */
  predicate IsOptional(t: Platform, d: Doc, f: Field, v: Option<real>) {
    if v.Some? then IsNumber(t.decimals, d, f, v.value) else f in d && d[f].Null?
  }

  predicate IsTexts(d: Doc, f: Field, items: seq<string>) {
    f in d && d[f] == Texts(items)
  }

  predicate IsDecision(t: Platform, d: Doc, c: Compliance) {
    && APPROVED in d && d[APPROVED] == Flag(c.approved)
    && IsText(d, APPROVAL_REASON, c.reason) && IsText(d, REQUEST_ID, c.requestId)
    && IsTexts(d, CHECKS_PASSED, c.checksPassed) && IsTexts(d, CHECKS_FAILED, c.checksFailed)
    && IsTexts(d, WARNINGS, c.warnings)
    && IsOptional(t, d, MAXIMUM_COMPLIANT_QUANTITY, c.maximumQuantity)
    && IsOptional(t, d, NORMALIZED_LIMIT_PRICE, c.limitPrice) && IsOptional(t, d, NORMALIZED_STOP_PRICE, c.stopPrice)
    && IsOptional(t, d, LOWER_VALID_TICK, c.lowerTick) && IsOptional(t, d, UPPER_VALID_TICK, c.upperTick)
  }

  lemma NumbersIff(t: Platform, d: Doc, n: Numbers)
    ensures ReadNumbers(t, d) == Some(n) <==>
      && IsOptional(t, d, MAXIMUM_COMPLIANT_QUANTITY, n.maximum)
      && IsOptional(t, d, NORMALIZED_LIMIT_PRICE, n.limit) && IsOptional(t, d, NORMALIZED_STOP_PRICE, n.stop)
      && IsOptional(t, d, LOWER_VALID_TICK, n.lower) && IsOptional(t, d, UPPER_VALID_TICK, n.upper)
  {
  }

  /** A text is read as a decision exactly when its members spell that decision, each under its own name. */
  lemma DecisionReadsExactly(t: Platform, text: string, c: Compliance)
    ensures DecisionFromText(t, text) == Some(c) <==> t.loads(text).Some? && IsDecision(t, t.loads(text).value, c)
  {
    if t.loads(text).Some? {
      NumbersIff(t, t.loads(text).value,
                 Numbers(c.maximumQuantity, c.limitPrice, c.stopPrice, c.lowerTick, c.upperTick));
    }
  }

  /** The text of a decision reads back as that decision exactly when its numbers have decimal texts, and
      otherwise not at all. */
  lemma DecisionRoundTrip(t: Platform, c: Compliance)
    requires t.Faithful()
    ensures DecisionFromText(t, DecisionText(t, c)) == if Readable(t, c) then Some(c) else None
  {
    var d := map f: Field :: FieldScalar(t, c, f);
    assert t.loads(t.dumps(d)) == Some(d);
    NumbersRoundTrip(t, d, c);
  }

  /** An engine that stores its pending orders and decisions with the program's own codecs is faithful: it never
      reads another order or decision than it wrote. */
  lemma OwnCodecsAreFaithful(o: OrderJson.Platform, t: Platform, c: Backtest.Engine)
    requires o.Faithful() && t.Faithful()
    requires c.encodeOrder == (p => OrderJson.ProposalJson(o, p))
    requires c.decodeOrder == (text => OrderJson.ProposalFromJson(o, text))
    requires c.encodeDecision == (d => DecisionText(t, d)) && c.decodeDecision == (text => DecisionFromText(t, text))
    ensures c.Faithful()
    ensures forall p :: c.decodeOrder(c.encodeOrder(p)).Some? <==> OrderJson.Readable(o, p)
    ensures forall d :: c.decodeDecision(c.encodeDecision(d)).Some? <==> Readable(t, d)
  {
    forall p ensures c.decodeOrder(c.encodeOrder(p)) == if OrderJson.Readable(o, p) then Some(p) else None {
      OrderJson.ProposalRoundTrip(o, p);
    }
    forall d ensures c.decodeDecision(c.encodeDecision(d)) == if Readable(t, d) then Some(d) else None {
      DecisionRoundTrip(t, d);
    }
  }
}
