/** The price rule of the paper market: which orders fill against a quote, and at what price. */
module FillRule {
  import opened OrderTerms
  import opened PaperTrading
  import opened Text
  import opened Wrappers

  /** Instants count microseconds. */
  const SECOND := 1_000_000

  datatype FillReason =
    | MALFORMED_AGE | STALE_QUOTE | OTHER_SYMBOL | UNSUPPORTED_TYPE | NO_SIDE_QUOTE | NO_LIMIT | NOT_CROSSED
    | MARKET_FILL | LIMIT_FILL

  /** The buyer pays the ask, the seller gets the bid. */
  function SideQuote(side: Side, quote: Quote): real {
    if side.BUY? then quote.ask else quote.bid
  }

  predicate Crossed(side: Side, price: real, limit: real) {
    if side.BUY? then price <= limit else price >= limit
  }

  /** `evaluate_fill`, its reasons worded by the caller. */
  function EvaluateFill(wording: FillReason -> string, maximumAge: int, order: Proposal, quote: Quote): FillEvaluation
  {
    var age := order.created.instant - quote.time.instant;
    var price := SideQuote(order.side, quote);
    if maximumAge < 0 then FillEvaluation(REJECTED, wording(MALFORMED_AGE), None)
    else if (if age < 0 then -age else age) > maximumAge * SECOND then
      FillEvaluation(REJECTED, wording(STALE_QUOTE), None)
    else if Normalize(quote.symbol) != Normalize(order.symbol) then
      FillEvaluation(REJECTED, wording(OTHER_SYMBOL), None)
    else if !order.orderType.MARKET? && !order.orderType.LIMIT? then
      FillEvaluation(REJECTED, wording(UNSUPPORTED_TYPE), None)
    else if price <= 0.0 then FillEvaluation(REJECTED, wording(NO_SIDE_QUOTE), None)
    else if order.orderType.MARKET? then FillEvaluation(FILLED, wording(MARKET_FILL), Some(price))
    else if order.limitPrice.None? || order.limitPrice.value <= 0.0 then
      FillEvaluation(REJECTED, wording(NO_LIMIT), None)
    else if !Crossed(order.side, price, order.limitPrice.value) then
      FillEvaluation(NOT_FILLED, wording(NOT_CROSSED), None)
    else FillEvaluation(FILLED, wording(LIMIT_FILL), Some(price))
  }

  /** The quote is of the order's symbol and at most `maximumAge` seconds from it, on either side. */
  predicate Current(maximumAge: int, order: Proposal, quote: Quote) {
    && Normalize(quote.symbol) == Normalize(order.symbol)
    && quote.time.instant - maximumAge * SECOND <= order.created.instant <= quote.time.instant + maximumAge * SECOND
  }

  /** A current order of a supported type meets the quote of its side or, being a limit order, misses it: a market order
      fills, a limit order fills unless the quote is worse than its limit, and then waits; all else is rejected. The
      price comes exactly with a fill and is the ask for a purchase, the bid for a sale. */
  lemma FillsAtSideQuote(wording: FillReason -> string, maximumAge: int, order: Proposal, quote: Quote)
    ensures var e := EvaluateFill(wording, maximumAge, order, quote);
      var price := if order.side.BUY? then quote.ask else quote.bid;
      var limited := order.orderType.LIMIT? && order.limitPrice.Some? && order.limitPrice.value > 0.0;
      var missed := limited
        && if order.side.BUY? then order.limitPrice.value < price else price < order.limitPrice.value;
      var current := Current(maximumAge, order, quote) && price > 0.0;
      && (e.status.FILLED? <==> current && (order.orderType.MARKET? || (limited && !missed)))
      && (e.status.NOT_FILLED? <==> current && missed)
      && e.price == (if e.status.FILLED? then Some(price) else None)
  {
    assert maximumAge < 0 ==> !Current(maximumAge, order, quote);
  }

  /** The market that prices by this rule. */
  ghost predicate PricesByRule(m: Market, wording: FillReason -> string, maximumAge: int) {
    forall p, q :: m.evaluateFill(p, q) == EvaluateFill(wording, maximumAge, p, q)
  }
}
