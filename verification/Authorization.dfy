/** Issuing, storing and consuming live execution authorizations. */
module Authorization {
  import opened FlatJson
  import opened OrderTerms
  import opened Text
  import opened Wrappers

  /** An aware timestamp is an instant; a naive one has no instant to compare. */
  datatype Timestamp = Aware(instant: int) | Naive(local: int)

  datatype TimeInForce = DAY | GTC | IOC

  /** The eight fields that an intent, its evidence and its authorization must agree on. */
  datatype Order = Order(
    accountId: string, symbol: string, side: Side, orderType: OrderType, quantity: real,
    limitPrice: Option<real>, stopPrice: Option<real>, timeInForce: TimeInForce)

  datatype Intent = Intent(intentId: string, order: Order, createdAt: Timestamp)

  /** Risk and compliance approvals have the same fields. */
  datatype Evidence = Evidence(
    approvalId: string, intentId: string, intentDigest: string, approved: bool, order: Order,
    issuedAt: Timestamp, expiresAt: Timestamp, revoked: bool, superseded: bool)

  datatype Authorization = Authorization(
    authorizationId: string, intentId: string, intentDigest: string,
    riskApprovalId: string, riskApprovalDigest: string,
    complianceApprovalId: string, complianceApprovalDigest: string,
    order: Order, issuedAt: Timestamp, expiresAt: Timestamp, singleUse: bool)

  /** Canonical digests and the text forms of numbers and timestamps. */
  datatype Platform = Platform(
    intentDigest: Intent -> string, evidenceDigest: Evidence -> string, decimals: Decimals,
    timeText: Timestamp -> string, readTime: string -> Option<Timestamp>)
  {
    /** Numbers are never misread and ISO timestamps read back. Digests may collide. */
    ghost predicate Faithful() {
      decimals.Faithful() && forall t: Timestamp :: t.Aware? ==> readTime(timeText(t)) == Some(t)
    }

    predicate NumbersRead(o: Order) {
      decimals.Reads(o.quantity) && decimals.AllRead(o.limitPrice) && decimals.AllRead(o.stopPrice)
    }
  }

  // ----- validation

  predicate ValidPrices(o: Order) {
    && (o.limitPrice.Some? ==> o.limitPrice.value > 0.0) && (o.stopPrice.Some? ==> o.stopPrice.value > 0.0)
    && match o.orderType
       case MARKET => o.limitPrice.None? && o.stopPrice.None?
       case LIMIT => o.limitPrice.Some? && o.stopPrice.None?
       case STOP => o.limitPrice.None? && o.stopPrice.Some?
       case STOP_LIMIT => o.limitPrice.Some? && o.stopPrice.Some?
  }

  predicate ValidIntent(i: Intent) {
    && !IsBlank(i.intentId) && !IsBlank(i.order.accountId) && i.createdAt.Aware?
    && !IsBlank(i.order.symbol) && i.order.quantity > 0.0 && ValidPrices(i.order)
    && i.order.symbol == Upper(i.order.symbol)
  }

  /** `start <= now < end`, all aware. */
  predicate Within(start: Timestamp, now: Timestamp, end: Timestamp) {
    start.Aware? && now.Aware? && end.Aware? && start.instant <= now.instant < end.instant
  }

  predicate ValidEvidence(p: Platform, i: Intent, e: Evidence, now: Timestamp) {
    && ValidIntent(i) && e.approved && !e.revoked && !e.superseded
    && Within(e.issuedAt, now, e.expiresAt)
    && e.intentId == i.intentId && e.intentDigest == p.intentDigest(i)
    && e.order == i.order
  }

  predicate ValidForConsumption(p: Platform, i: Intent, a: Authorization, now: Timestamp) {
    && ValidIntent(i)
    && a.intentId == i.intentId && a.intentDigest == p.intentDigest(i) && a.order == i.order
    && Within(a.issuedAt, now, a.expiresAt)
  }

  datatype Request = Request(
    intent: Intent, risk: Evidence, compliance: Evidence, authorizationId: string,
    issuedAt: Timestamp, expiresAt: Timestamp, singleUse: bool)

  /** The authorization that `issue_authorization` builds, or None where it raises. */
  function Build(p: Platform, r: Request): Option<Authorization> {
    if !ValidIntent(r.intent) || IsBlank(r.authorizationId) then None
    else if !ValidEvidence(p, r.intent, r.risk, r.issuedAt) then None
    else if !ValidEvidence(p, r.intent, r.compliance, r.issuedAt) then None
    else if !r.expiresAt.Aware? || r.expiresAt.instant <= r.issuedAt.instant then None
    else if r.expiresAt.instant > r.risk.expiresAt.instant then None
    else if r.expiresAt.instant > r.compliance.expiresAt.instant then None
    else Some(Authorization(
      r.authorizationId, r.intent.intentId, p.intentDigest(r.intent),
      r.risk.approvalId, p.evidenceDigest(r.risk), r.compliance.approvalId, p.evidenceDigest(r.compliance),
      r.intent.order, r.issuedAt, r.expiresAt, r.singleUse))
  }

  // ----- what issuing and consuming ask for, field by field

  /** An order to be executed: for an account and a symbol in capitals, of a positive quantity, with exactly the
      prices of its type. */
  predicate IsOrder(o: Order) {
    && !IsBlank(o.accountId) && !IsBlank(o.symbol) && Upper(o.symbol) == o.symbol && o.quantity > 0.0
    && (o.limitPrice.Some? <==> o.orderType.LIMIT? || o.orderType.STOP_LIMIT?)
    && (o.stopPrice.Some? <==> o.orderType.STOP? || o.orderType.STOP_LIMIT?)
    && (o.limitPrice.Some? ==> o.limitPrice.value > 0.0) && (o.stopPrice.Some? ==> o.stopPrice.value > 0.0)
  }

  predicate IsIntent(i: Intent) {
    !IsBlank(i.intentId) && i.createdAt.Aware? && IsOrder(i.order)
  }

  /** The evidence approves this very intent and is in force from the issue of the authorization to its expiry. */
  predicate Supports(p: Platform, r: Request, e: Evidence) {
    && e.approved && !e.revoked && !e.superseded
    && e.intentId == r.intent.intentId && e.intentDigest == p.intentDigest(r.intent) && e.order == r.intent.order
    && e.issuedAt.Aware? && e.expiresAt.Aware? && r.issuedAt.Aware? && r.expiresAt.Aware?
    && e.issuedAt.instant <= r.issuedAt.instant && r.expiresAt.instant <= e.expiresAt.instant
  }

  predicate Issuable(p: Platform, r: Request) {
    && IsIntent(r.intent) && !IsBlank(r.authorizationId)
    && r.issuedAt.Aware? && r.expiresAt.Aware? && r.issuedAt.instant < r.expiresAt.instant
    && Supports(p, r, r.risk) && Supports(p, r, r.compliance)
  }

  /** The authorization says what was requested, for the intent and evidence of the request. */
  predicate Agrees(p: Platform, r: Request, a: Authorization) {
    && a.authorizationId == r.authorizationId && a.order == r.intent.order
    && a.intentId == r.intent.intentId && a.intentDigest == p.intentDigest(r.intent)
    && a.riskApprovalId == r.risk.approvalId && a.riskApprovalDigest == p.evidenceDigest(r.risk)
    && a.complianceApprovalId == r.compliance.approvalId
    && a.complianceApprovalDigest == p.evidenceDigest(r.compliance)
    && a.issuedAt == r.issuedAt && a.expiresAt == r.expiresAt && a.singleUse == r.singleUse
  }

  lemma ValidIntentIsIntent(i: Intent)
    ensures ValidIntent(i) <==> IsIntent(i)
  {
  }

  /** An authorization is built exactly for a request that its evidence supports, and agrees with it throughout. */
  lemma BuildsExactly(p: Platform, r: Request)
    ensures Build(p, r).Some? <==> Issuable(p, r)
    ensures Build(p, r).Some? ==> Agrees(p, r, Build(p, r).value)
  {
    ValidIntentIsIntent(r.intent);
  }

  /** The authorization is for this very intent and in its validity period. */
  predicate Authorizes(p: Platform, a: Authorization, i: Intent, now: Timestamp) {
    && IsIntent(i) && a.order == i.order
    && a.intentId == i.intentId && a.intentDigest == p.intentDigest(i)
    && a.issuedAt.Aware? && a.expiresAt.Aware? && now.Aware?
    && a.issuedAt.instant <= now.instant < a.expiresAt.instant
  }

  lemma ConsumesExactly(p: Platform, i: Intent, a: Authorization, now: Timestamp)
    ensures ValidForConsumption(p, i, a, now) <==> Authorizes(p, a, i, now)
  {
    ValidIntentIsIntent(i);
  }

  // ----- the stored payload

  datatype Field =
    | AUTHORIZATION_ID | INTENT_ID | INTENT_DIGEST | RISK_APPROVAL_ID | RISK_APPROVAL_DIGEST
    | COMPLIANCE_APPROVAL_ID | COMPLIANCE_APPROVAL_DIGEST | ACCOUNT_ID | SYMBOL | SIDE | ORDER_TYPE | QUANTITY
    | LIMIT_PRICE | STOP_PRICE | TIME_IN_FORCE | ISSUED_AT | EXPIRES_AT | SINGLE_USE | SCHEMA_VERSION

  /** The JSON object in the payload column. */
  type Payload = map<Field, Scalar>

  const SCHEMA := 2

  function TimeInForceText(t: TimeInForce): string {
    match t case DAY => "DAY" case GTC => "GTC" case IOC => "IOC"
  }

  function ReadTimeInForce(s: string): Option<TimeInForce> {
    if s == "DAY" then Some(DAY) else if s == "GTC" then Some(GTC) else if s == "IOC" then Some(IOC) else None
  }

  function FieldScalar(p: Platform, a: Authorization, f: Field): Scalar {
    match f
    case AUTHORIZATION_ID => Text(a.authorizationId)
    case INTENT_ID => Text(a.intentId)
    case INTENT_DIGEST => Text(a.intentDigest)
    case RISK_APPROVAL_ID => Text(a.riskApprovalId)
    case RISK_APPROVAL_DIGEST => Text(a.riskApprovalDigest)
    case COMPLIANCE_APPROVAL_ID => Text(a.complianceApprovalId)
    case COMPLIANCE_APPROVAL_DIGEST => Text(a.complianceApprovalDigest)
    case ACCOUNT_ID => Text(a.order.accountId)
    case SYMBOL => Text(a.order.symbol)
    case SIDE => Text(SideText(a.order.side))
    case ORDER_TYPE => Text(OrderTypeText(a.order.orderType))
    case QUANTITY => Text(p.decimals.print_(a.order.quantity))
    case LIMIT_PRICE => p.decimals.Optional(a.order.limitPrice)
    case STOP_PRICE => p.decimals.Optional(a.order.stopPrice)
    case TIME_IN_FORCE => Text(TimeInForceText(a.order.timeInForce))
    case ISSUED_AT => Text(p.timeText(a.issuedAt))
    case EXPIRES_AT => Text(p.timeText(a.expiresAt))
    case SINGLE_USE => Flag(a.singleUse)
    case SCHEMA_VERSION => Number(SCHEMA)
  }

  function ToPayload(p: Platform, a: Authorization): Payload {
    map f: Field :: FieldScalar(p, a, f)
  }

  /** `_decimal(value.get(...))`: absent and null both mean None. */
  function PriceAt(p: Platform, d: Payload, f: Field): Option<Option<real>> {
    if f in d then OptionalAt(p.decimals, d, f) else Some(None)
  }

  /** An aware timestamp; naive ones are refused. */
  function TimeAt(p: Platform, d: Payload, f: Field): Option<Timestamp> {
    if f in d && d[f].Text? && p.readTime(d[f].text).Some? && p.readTime(d[f].text).value.Aware?
    then p.readTime(d[f].text) else None
  }

  function ReadOrder(p: Platform, d: Payload): Option<Order> {
    var limitPrice := PriceAt(p, d, LIMIT_PRICE);
    var stopPrice := PriceAt(p, d, STOP_PRICE);
    if TextAt(d, ACCOUNT_ID).Some? && TextAt(d, SYMBOL).Some? && TextAt(d, SIDE).Some? && TextAt(d, ORDER_TYPE).Some?
       && TextAt(d, QUANTITY).Some? && TextAt(d, TIME_IN_FORCE).Some? && limitPrice.Some? && stopPrice.Some?
       && ReadSide(d[SIDE].text).Some? && ReadOrderType(d[ORDER_TYPE].text).Some?
       && ReadTimeInForce(d[TIME_IN_FORCE].text).Some? && p.decimals.parse(d[QUANTITY].text).Some?
    then Some(Order(d[ACCOUNT_ID].text, d[SYMBOL].text, ReadSide(d[SIDE].text).value,
                    ReadOrderType(d[ORDER_TYPE].text).value,
                    p.decimals.parse(d[QUANTITY].text).value, limitPrice.value, stopPrice.value,
                    ReadTimeInForce(d[TIME_IN_FORCE].text).value))
    else None
  }

  /** `bool(value)`. */
  predicate Truthy(v: Scalar) {
    match v
    case Null => false
    case Text(s) => s != ""
    case Number(n) => n != 0
    case Flag(b) => b
    case Texts(items) => items != []
  }

  /** None for another schema version and for missing or malformed fields. */
  function FromPayload(p: Platform, d: Payload): Option<Authorization> {
    if SCHEMA_VERSION !in d || d[SCHEMA_VERSION] != Number(SCHEMA) then None else
    var order := ReadOrder(p, d);
    var issuedAt, expiresAt := TimeAt(p, d, ISSUED_AT), TimeAt(p, d, EXPIRES_AT);
    if TextAt(d, AUTHORIZATION_ID).Some? && TextAt(d, INTENT_ID).Some? && TextAt(d, INTENT_DIGEST).Some?
       && TextAt(d, RISK_APPROVAL_ID).Some? && TextAt(d, RISK_APPROVAL_DIGEST).Some?
       && TextAt(d, COMPLIANCE_APPROVAL_ID).Some? && TextAt(d, COMPLIANCE_APPROVAL_DIGEST).Some?
       && SINGLE_USE in d && order.Some? && issuedAt.Some? && expiresAt.Some?
    then Some(Authorization(
      d[AUTHORIZATION_ID].text, d[INTENT_ID].text, d[INTENT_DIGEST].text, d[RISK_APPROVAL_ID].text,
      d[RISK_APPROVAL_DIGEST].text, d[COMPLIANCE_APPROVAL_ID].text, d[COMPLIANCE_APPROVAL_DIGEST].text,
      order.value, issuedAt.value, expiresAt.value, Truthy(d[SINGLE_USE])))
    else None
  }

  // ----- which payloads are read as which authorization

  /** An absent price and null both mean none. */
  predicate IsPrice(p: Platform, d: Payload, f: Field, v: Option<real>) {
    if v.Some? then IsNumber(p.decimals, d, f, v.value) else f in d ==> d[f].Null?
  }

  predicate IsTime(p: Platform, d: Payload, f: Field, t: Timestamp) {
    f in d && d[f].Text? && p.readTime(d[f].text) == Some(t) && t.Aware?
  }

  predicate HasTerms(d: Payload, side: Side, orderType: OrderType, timeInForce: TimeInForce) {
    && IsText(d, SIDE, if side.BUY? then "BUY" else "SELL")
    && IsText(d, ORDER_TYPE, match orderType case MARKET => "MARKET" case LIMIT => "LIMIT" case STOP => "STOP"
                                             case STOP_LIMIT => "STOP_LIMIT")
    && IsText(d, TIME_IN_FORCE, match timeInForce case DAY => "DAY" case GTC => "GTC" case IOC => "IOC")
  }

  predicate IsOrderOf(p: Platform, d: Payload, o: Order) {
    && IsText(d, ACCOUNT_ID, o.accountId) && IsText(d, SYMBOL, o.symbol)
    && HasTerms(d, o.side, o.orderType, o.timeInForce)
    && IsNumber(p.decimals, d, QUANTITY, o.quantity)
    && IsPrice(p, d, LIMIT_PRICE, o.limitPrice) && IsPrice(p, d, STOP_PRICE, o.stopPrice)
  }

  predicate IsPayload(p: Platform, d: Payload, a: Authorization) {
    && SCHEMA_VERSION in d && d[SCHEMA_VERSION] == Number(2)
    && IsText(d, AUTHORIZATION_ID, a.authorizationId)
    && IsText(d, INTENT_ID, a.intentId) && IsText(d, INTENT_DIGEST, a.intentDigest)
    && IsText(d, RISK_APPROVAL_ID, a.riskApprovalId) && IsText(d, RISK_APPROVAL_DIGEST, a.riskApprovalDigest)
    && IsText(d, COMPLIANCE_APPROVAL_ID, a.complianceApprovalId)
    && IsText(d, COMPLIANCE_APPROVAL_DIGEST, a.complianceApprovalDigest)
    && IsOrderOf(p, d, a.order) && IsTime(p, d, ISSUED_AT, a.issuedAt) && IsTime(p, d, EXPIRES_AT, a.expiresAt)
    && SINGLE_USE in d && (a.singleUse <==> d[SINGLE_USE] !in {Null, Text(""), Number(0), Flag(false), Texts([])})
  }

  lemma PriceIff(p: Platform, d: Payload, f: Field, v: Option<real>)
    ensures PriceAt(p, d, f) == Some(v) <==> IsPrice(p, d, f, v)
  {
  }

  lemma TermsIff(d: Payload, side: Side, orderType: OrderType, timeInForce: TimeInForce)
    ensures HasTerms(d, side, orderType, timeInForce) <==>
      && TextAt(d, SIDE).Some? && ReadSide(d[SIDE].text) == Some(side)
      && TextAt(d, ORDER_TYPE).Some? && ReadOrderType(d[ORDER_TYPE].text) == Some(orderType)
      && TextAt(d, TIME_IN_FORCE).Some? && ReadTimeInForce(d[TIME_IN_FORCE].text) == Some(timeInForce)
  {
  }

  lemma OrderIff(p: Platform, d: Payload, o: Order)
    ensures ReadOrder(p, d) == Some(o) <==> IsOrderOf(p, d, o)
  {
    PriceIff(p, d, LIMIT_PRICE, o.limitPrice);
    PriceIff(p, d, STOP_PRICE, o.stopPrice);
    TermsIff(d, o.side, o.orderType, o.timeInForce);
  }

  /** A payload is read as an authorization exactly when its members spell that authorization, each under its own
      name, in the current schema version. */
  lemma PayloadReadsExactly(p: Platform, d: Payload, a: Authorization)
    ensures FromPayload(p, d) == Some(a) <==> IsPayload(p, d, a)
  {
    OrderIff(p, d, a.order);
  }

  /** `d` is what `a` is stored as, read field by field. */
  ghost predicate Stores(p: Platform, d: Payload, a: Authorization) {
    forall f {:trigger d[f]} {:trigger f in d} :: f in d && d[f] == FieldScalar(p, a, f)
  }

  lemma TimeRoundTrip(p: Platform, d: Payload, f: Field, t: Timestamp)
    requires p.Faithful() && f in d && t.Aware? && d[f] == Text(p.timeText(t))
    ensures TimeAt(p, d, f) == Some(t)
  {
    assert p.readTime(p.timeText(t)) == Some(t);
  }

  ghost predicate OrderTexts(d: Payload, o: Order) {
    && TextAt(d, ACCOUNT_ID) == Some(o.accountId) && TextAt(d, SYMBOL) == Some(o.symbol)
    && TextAt(d, SIDE) == Some(SideText(o.side)) && TextAt(d, ORDER_TYPE) == Some(OrderTypeText(o.orderType))
    && TextAt(d, TIME_IN_FORCE) == Some(TimeInForceText(o.timeInForce))
  }

  lemma AssembleOrder(p: Platform, d: Payload, o: Order)
    requires p.Faithful() && OrderTexts(d, o) && TextAt(d, QUANTITY) == Some(p.decimals.print_(o.quantity))
    requires PriceAt(p, d, LIMIT_PRICE) == if p.decimals.AllRead(o.limitPrice) then Some(o.limitPrice) else None
    requires PriceAt(p, d, STOP_PRICE) == if p.decimals.AllRead(o.stopPrice) then Some(o.stopPrice) else None
    ensures ReadOrder(p, d) == if p.NumbersRead(o) then Some(o) else None
  {
    NumberRoundTrip(p.decimals, o.quantity);
    assert ReadSide(SideText(o.side)) == Some(o.side);
    assert ReadOrderType(OrderTypeText(o.orderType)) == Some(o.orderType);
    assert ReadTimeInForce(TimeInForceText(o.timeInForce)) == Some(o.timeInForce);
  }

  lemma StoredTexts(p: Platform, d: Payload, a: Authorization)
    requires Stores(p, d, a)
    ensures OrderTexts(d, a.order)
  {
  }

  lemma StoredNumbers(p: Platform, d: Payload, a: Authorization)
    requires Stores(p, d, a)
    ensures TextAt(d, QUANTITY) == Some(p.decimals.print_(a.order.quantity))
    ensures LIMIT_PRICE in d && d[LIMIT_PRICE] == p.decimals.Optional(a.order.limitPrice)
    ensures STOP_PRICE in d && d[STOP_PRICE] == p.decimals.Optional(a.order.stopPrice)
  {
  }

  lemma OrderRoundTrip(p: Platform, d: Payload, a: Authorization)
    requires p.Faithful() && Stores(p, d, a)
    ensures ReadOrder(p, d) == if p.NumbersRead(a.order) then Some(a.order) else None
  {
    StoredTexts(p, d, a);
    StoredNumbers(p, d, a);
    OptionalRoundTrip(p.decimals, d, LIMIT_PRICE, a.order.limitPrice);
    OptionalRoundTrip(p.decimals, d, STOP_PRICE, a.order.stopPrice);
    AssembleOrder(p, d, a.order);
  }

  /** What is stored for an authorization reads back as the same authorization exactly when the decimal text
      carries its numbers, and otherwise not at all: never as another authorization. */
  lemma PayloadRoundTrip(p: Platform, a: Authorization)
    requires p.Faithful() && a.issuedAt.Aware? && a.expiresAt.Aware?
    ensures FromPayload(p, ToPayload(p, a)) == if p.NumbersRead(a.order) then Some(a) else None
  {
    StoredRoundTrip(p, ToPayload(p, a), a);
  }

  lemma StoredRoundTrip(p: Platform, d: Payload, a: Authorization)
    requires p.Faithful() && a.issuedAt.Aware? && a.expiresAt.Aware? && Stores(p, d, a)
    ensures FromPayload(p, d) == if p.NumbersRead(a.order) then Some(a) else None
  {
    OrderRoundTrip(p, d, a);
    TimeRoundTrip(p, d, ISSUED_AT, a.issuedAt);
    TimeRoundTrip(p, d, EXPIRES_AT, a.expiresAt);
    StoredIdentities(p, d, a);
    if p.NumbersRead(a.order) {
      AssembleRead(p, d, a);
    }
  }

  ghost predicate Identities(d: Payload, a: Authorization) {
    && TextAt(d, AUTHORIZATION_ID) == Some(a.authorizationId)
    && TextAt(d, INTENT_ID) == Some(a.intentId) && TextAt(d, INTENT_DIGEST) == Some(a.intentDigest)
    && TextAt(d, RISK_APPROVAL_ID) == Some(a.riskApprovalId)
    && TextAt(d, RISK_APPROVAL_DIGEST) == Some(a.riskApprovalDigest)
    && TextAt(d, COMPLIANCE_APPROVAL_ID) == Some(a.complianceApprovalId)
    && TextAt(d, COMPLIANCE_APPROVAL_DIGEST) == Some(a.complianceApprovalDigest)
    && SINGLE_USE in d && d[SINGLE_USE] == Flag(a.singleUse)
    && SCHEMA_VERSION in d && d[SCHEMA_VERSION] == Number(SCHEMA)
  }

  lemma StoredIdentities(p: Platform, d: Payload, a: Authorization)
    requires Stores(p, d, a)
    ensures Identities(d, a)
  {
  }

  lemma AssembleRead(p: Platform, d: Payload, a: Authorization)
    requires Identities(d, a) && ReadOrder(p, d) == Some(a.order)
    requires TimeAt(p, d, ISSUED_AT) == Some(a.issuedAt) && TimeAt(p, d, EXPIRES_AT) == Some(a.expiresAt)
    ensures FromPayload(p, d) == Some(a)
  {
  }
}
