/** Sides and types of orders, with the enumeration values that stand for them in JSON. */
module OrderTerms {
  import opened Wrappers

  datatype Side = BUY | SELL
  datatype OrderType = MARKET | LIMIT | STOP | STOP_LIMIT

  function SideText(s: Side): string {
    match s case BUY => "BUY" case SELL => "SELL"
  }

  function ReadSide(s: string): Option<Side> {
    if s == "BUY" then Some(BUY) else if s == "SELL" then Some(SELL) else None
  }

  function OrderTypeText(t: OrderType): string {
    match t case MARKET => "MARKET" case LIMIT => "LIMIT" case STOP => "STOP" case STOP_LIMIT => "STOP_LIMIT"
  }

  function ReadOrderType(s: string): Option<OrderType> {
    if s == "MARKET" then Some(MARKET) else if s == "LIMIT" then Some(LIMIT)
    else if s == "STOP" then Some(STOP) else if s == "STOP_LIMIT" then Some(STOP_LIMIT) else None
  }
}
