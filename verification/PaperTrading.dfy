/** The paper portfolio: applying fills, and simulating one proposal. Amounts are exact. */
module PaperTrading {
  import opened OrderTerms
  import opened PurchaseLots
  import opened Text
  import opened Wrappers

  datatype Proposal = Proposal(
    requestId: string, symbol: string, side: Side, orderType: OrderType, quantity: real,
    limitPrice: Option<real>, stopPrice: Option<real>, session: string, created: Moment)

  datatype Compliance = Compliance(
    approved: bool, reason: string, requestId: string,
    checksPassed: seq<string>, checksFailed: seq<string>, warnings: seq<string>,
    maximumQuantity: Option<real>, limitPrice: Option<real>, stopPrice: Option<real>,
    lowerTick: Option<real>, upperTick: Option<real>)

  datatype Quote = Quote(symbol: string, bid: real, ask: real, last: real, time: Moment)

  datatype Position = Position(symbol: string, quantity: real, averageCost: real, mark: real, marketValue: real,
                               unrealized: real)

  datatype Portfolio = Portfolio(
    initialCash: real, cash: real, positions: seq<Position>,
    realized: real, unrealized: real, equity: real, time: Moment)

  datatype EquityPoint = EquityPoint(time: Moment, equity: real)

  datatype JournalEventType = PROPOSED | REJECTION | UNFILLED | FILL | PORTFOLIO_CHANGE

  datatype JournalEvent = JournalEvent(
    sequence: int, eventType: JournalEventType, requestId: string, time: Moment, message: string,
    details: seq<(string, string)>)

  datatype Status = FILLED | REJECTED | NOT_FILLED

  datatype FillEvaluation = FillEvaluation(status: Status, reason: string, price: Option<real>)

  /** What a journal event says; its wording and the text form of its amounts are left to the market. */
  datatype Note =
    | ProposalReceived(symbol: string, quantity: real)
    | ApprovalMissing
    | NotExecuted(reason: string)
    | LastPriceMissing
    | FillRefused
    | FillRecorded(price: real, filledQuantity: real, realized: real, side: string, filledSymbol: string)
    | PortfolioUpdated(cash: real, equity: real)

  /** What `Decimal` makes of a text; NaN counts as unreadable, since it cannot be compared. */
  datatype Reading = FINITE | PLUS_INFINITY | MINUS_INFINITY | UNREADABLE

  /** `evaluate_fill`, the wording of journal events, the text of an amount, and the reading of a text. */
  datatype Market = Market(
    evaluateFill: (Proposal, Quote) -> FillEvaluation, message: Note -> string, amountText: real -> string,
    readAmount: string -> Reading)
  {
    ghost predicate WritesAmounts() {
      forall x {:trigger amountText(x)} :: readAmount(amountText(x)).FINITE?
    }
  }

  // ----- positions

  function Find(ps: seq<Position>, symbol: string): Option<Position> {
    if ps == [] then None else if ps[0].symbol == symbol then Some(ps[0]) else Find(ps[1..], symbol)
  }

  function Without(ps: seq<Position>, symbol: string): seq<Position> {
    if ps == [] then []
    else if ps[0].symbol == symbol then Without(ps[1..], symbol)
    else [ps[0]] + Without(ps[1..], symbol)
  }

  predicate Before(a: string, b: string) {
    b != "" && (a == "" || a[0] < b[0] || (a[0] == b[0] && Before(a[1..], b[1..])))
  }

  /** Inserts in symbol order. */
  function Insert(p: Position, ps: seq<Position>): seq<Position> {
    if ps == [] || Before(p.symbol, ps[0].symbol) then [p] + ps else [ps[0]] + Insert(p, ps[1..])
  }

  function Quantity(ps: seq<Position>, symbol: string): real {
    var p := Find(ps, symbol);
    if p.Some? then p.value.quantity else 0.0
  }

  function Sum(ps: seq<Position>, f: Position -> real): real {
    if ps == [] then 0.0 else f(ps[0]) + Sum(ps[1..], f)
  }

  function MarketValue(p: Position): real { p.marketValue }
  function Unrealized(p: Position): real { p.unrealized }
  function Cost(p: Position): real { p.quantity * p.averageCost }

  // ----- apply_fill

  function CreatePortfolio(initialCash: real, time: Moment): Option<Portfolio> {
    if initialCash < 0.0 then None else Some(Portfolio(initialCash, initialCash, [], 0.0, 0.0, initialCash, time))
  }

  function NewPosition(symbol: string, quantity: real, averageCost: real, mark: real): Position {
    Position(symbol, quantity, averageCost, mark, quantity * mark, (mark - averageCost) * quantity)
  }

  /** What a fill does to the position in its symbol, to cash, and to realised profit. */
  datatype Change = Change(quantity: real, averageCost: real, cash: real, realized: real)

  function FillChange(cash: real, existing: Option<Position>, side: Side, quantity: real, price: real): Option<Change>
  {
    var notional := quantity * price;
    if side.BUY? then
      var oldQuantity := if existing.Some? then existing.value.quantity else 0.0;
      var oldCost := if existing.Some? then existing.value.averageCost else 0.0;
      if cash < notional || oldQuantity + quantity == 0.0 then None
      else
        Some(Change(oldQuantity + quantity, (oldQuantity * oldCost + notional) / (oldQuantity + quantity),
                    cash - notional, 0.0))
    else if existing.None? || quantity > existing.value.quantity then None
    else Some(Change(existing.value.quantity - quantity, existing.value.averageCost, cash + notional,
                     (price - existing.value.averageCost) * quantity))
  }

  function Reposition(ps: seq<Position>, symbol: string, change: Change, mark: real): seq<Position> {
    if change.quantity == 0.0 then Without(ps, symbol)
    else Insert(NewPosition(symbol, change.quantity, change.averageCost, mark), Without(ps, symbol))
  }

  /** The portfolio with the changed position and all totals taken anew. */
  function Rebooked(f: Portfolio, key: string, change: Change, mark: real, time: Moment): Portfolio {
    var positions := Reposition(f.positions, key, change, mark);
    Portfolio(f.initialCash, change.cash, positions, f.realized + change.realized,
              Sum(positions, Unrealized), change.cash + Sum(positions, MarketValue), time)
  }

  /** The new portfolio and the realised profit, or None where `apply_fill` raises. */
  function ApplyFill(portfolio: Portfolio, symbol: string, side: Side, quantity: real, price: real, mark: real,
                     time: Moment)
    : Option<(Portfolio, real)>
  {
    var key := Normalize(symbol);
    var existing := Find(portfolio.positions, key);
    if quantity <= 0.0 || price <= 0.0 || mark <= 0.0 then None
    else
      match FillChange(portfolio.cash, existing, side, quantity, price)
      case None => None
      case Some(change) =>
        Some((Rebooked(portfolio, key, change, mark, time), change.realized))
  }

  // ----- the books balance

  predicate PositionOk(p: Position) {
    && p.quantity > 0.0 && p.mark > 0.0
    && p.marketValue == p.quantity * p.mark && p.unrealized == (p.mark - p.averageCost) * p.quantity
  }

  ghost predicate PositionsOk(ps: seq<Position>) {
    && (forall i :: 0 <= i < |ps| ==> PositionOk(ps[i]))
    && (forall i, j :: 0 <= i < j < |ps| ==> ps[i].symbol != ps[j].symbol)
  }

  /** Cash plus what the open positions cost is the initial cash plus realised profit, and equity is that plus
      unrealised profit. */
  ghost predicate Balanced(f: Portfolio) {
    && PositionsOk(f.positions) && f.cash >= 0.0
    && f.cash + Sum(f.positions, Cost) == f.initialCash + f.realized
    && f.unrealized == Sum(f.positions, Unrealized)
    && f.equity == f.initialCash + f.realized + f.unrealized
  }

  lemma {:induction false} FindFacts(ps: seq<Position>, symbol: string)
    ensures var p := Find(ps, symbol); p.Some? ==> p.value in ps && p.value.symbol == symbol
    ensures Find(ps, symbol).None? ==> forall i :: 0 <= i < |ps| ==> ps[i].symbol != symbol
    decreases |ps|
  {
    if ps != [] {
      FindFacts(ps[1..], symbol);
    }
  }

  lemma {:induction false} WithoutFacts(ps: seq<Position>, symbol: string, other: string)
    requires PositionsOk(ps)
    ensures PositionsOk(Without(ps, symbol))
    ensures forall p :: p in Without(ps, symbol) ==> p in ps && p.symbol != symbol
    ensures Find(Without(ps, symbol), other) == if other == symbol then None else Find(ps, other)
    decreases |ps|
  {
    if ps != [] {
      WithoutFacts(ps[1..], symbol, other);
      assert forall i :: 0 <= i < |ps[1..]| ==> ps[1..][i] == ps[i + 1];
      var rest := Without(ps[1..], symbol);
      if ps[0].symbol != symbol {
        assert ([ps[0]] + rest)[1..] == rest;
        forall i | 0 <= i < |rest| ensures rest[i].symbol != ps[0].symbol {
          assert rest[i] in ps[1..];
        }
      } else {
        FindFacts(ps[1..], symbol);
      }
    }
  }

  lemma {:induction false} WithoutSum(ps: seq<Position>, symbol: string, f: Position -> real)
    requires PositionsOk(ps)
    ensures Sum(ps, f)
         == Sum(Without(ps, symbol), f) + if Find(ps, symbol).Some? then f(Find(ps, symbol).value) else 0.0
    decreases |ps|
  {
    if ps != [] {
      assert forall i :: 0 <= i < |ps[1..]| ==> ps[1..][i] == ps[i + 1];
      WithoutSum(ps[1..], symbol, f);
      var rest := Without(ps[1..], symbol);
      assert ([ps[0]] + rest)[1..] == rest;
      if ps[0].symbol == symbol {
        FindFacts(ps[1..], symbol);
        assert Find(ps[1..], symbol).None?;
      }
    }
  }

  lemma {:induction false} InsertKeepsOk(p: Position, ps: seq<Position>)
    requires PositionsOk(ps) && PositionOk(p) && forall i :: 0 <= i < |ps| ==> ps[i].symbol != p.symbol
    ensures PositionsOk(Insert(p, ps))
    ensures forall q :: q in Insert(p, ps) ==> q == p || q in ps
    decreases |ps|
  {
    if ps != [] && !Before(p.symbol, ps[0].symbol) {
      assert forall i :: 0 <= i < |ps[1..]| ==> ps[1..][i] == ps[i + 1];
      InsertKeepsOk(p, ps[1..]);
      var rest := Insert(p, ps[1..]);
      forall i | 0 <= i < |rest| ensures rest[i].symbol != ps[0].symbol {
        assert rest[i] == p || rest[i] in ps[1..];
      }
    }
  }

  lemma {:induction false} FindInserted(p: Position, ps: seq<Position>, other: string)
    requires forall i :: 0 <= i < |ps| ==> ps[i].symbol != p.symbol
    ensures Find(Insert(p, ps), other) == if other == p.symbol then Some(p) else Find(ps, other)
    decreases |ps|
  {
    if ps == [] || Before(p.symbol, ps[0].symbol) {
      assert ([p] + ps)[1..] == ps;
      FindFacts(ps, other);
    } else {
      FindInserted(p, ps[1..], other);
      assert ([ps[0]] + Insert(p, ps[1..]))[1..] == Insert(p, ps[1..]);
    }
  }

  lemma {:induction false} InsertSum(p: Position, ps: seq<Position>, f: Position -> real)
    ensures Sum(Insert(p, ps), f) == f(p) + Sum(ps, f)
    decreases |ps|
  {
    if ps == [] || Before(p.symbol, ps[0].symbol) {
      assert ([p] + ps)[1..] == ps;
    } else {
      InsertSum(p, ps[1..], f);
      assert ([ps[0]] + Insert(p, ps[1..]))[1..] == Insert(p, ps[1..]);
    }
  }

  /** The three totals differ by what the books say: value minus cost is unrealised profit. */
  lemma {:induction false} ValueIsCostPlusUnrealized(ps: seq<Position>)
    requires PositionsOk(ps)
    ensures Sum(ps, MarketValue) == Sum(ps, Cost) + Sum(ps, Unrealized)
    decreases |ps|
  {
    if ps != [] {
      assert forall i :: 0 <= i < |ps[1..]| ==> ps[1..][i] == ps[i + 1];
      ValueIsCostPlusUnrealized(ps[1..]);
      assert PositionOk(ps[0]);
      assert (ps[0].mark - ps[0].averageCost) * ps[0].quantity
        == ps[0].quantity * ps[0].mark - ps[0].quantity * ps[0].averageCost;
    }
  }

  /** A fill moves value between cash, cost and realised profit without creating any. */
  lemma ChangeConserves(cash: real, existing: Option<Position>, side: Side, quantity: real, price: real)
    requires quantity > 0.0 && price > 0.0 && cash >= 0.0 && (existing.Some? ==> existing.value.quantity > 0.0)
    requires FillChange(cash, existing, side, quantity, price).Some?
    ensures var change := FillChange(cash, existing, side, quantity, price).value;
      var oldCost := if existing.Some? then Cost(existing.value) else 0.0;
      var oldQuantity := if existing.Some? then existing.value.quantity else 0.0;
      && change.cash >= 0.0 && change.quantity >= 0.0
      && change.quantity == (if side.BUY? then oldQuantity + quantity else oldQuantity - quantity)
      && change.cash + change.quantity * change.averageCost - change.realized == cash + oldCost
  {
    var change := FillChange(cash, existing, side, quantity, price).value;
    var notional := quantity * price;
    if side.BUY? {
      var oldQuantity := if existing.Some? then existing.value.quantity else 0.0;
      var oldCost := if existing.Some? then existing.value.averageCost else 0.0;
      Quotient(oldQuantity * oldCost + notional, oldQuantity + quantity);
    } else {
      var c := existing.value.averageCost;
      assert notional >= 0.0;
      assert (price - c) * quantity == notional - c * quantity;
      assert (existing.value.quantity - quantity) * c == existing.value.quantity * c - quantity * c;
    }
  }

  lemma Quotient(x: real, y: real)
    requires y > 0.0
    ensures y * (x / y) == x
  {
  }

  /** Replacing one symbol's position sets its quantity and leaves every other symbol alone. */
  lemma RepositionFacts(ps: seq<Position>, symbol: string, change: Change, mark: real, other: string)
    requires PositionsOk(ps) && change.quantity >= 0.0 && mark > 0.0
    ensures var ps' := Reposition(ps, symbol, change, mark);
      PositionsOk(ps') && Quantity(ps', other) == if other == symbol then change.quantity else Quantity(ps, other)
  {
    var kept := Without(ps, symbol);
    WithoutFacts(ps, symbol, other);
    if change.quantity != 0.0 {
      var p := NewPosition(symbol, change.quantity, change.averageCost, mark);
      InsertKeepsOk(p, kept);
      FindInserted(p, kept, other);
    }
  }

  function CostOf(p: Option<Position>): real {
    if p.Some? then Cost(p.value) else 0.0
  }

  lemma InsertCost(symbol: string, change: Change, mark: real, kept: seq<Position>)
    ensures Sum(Insert(NewPosition(symbol, change.quantity, change.averageCost, mark), kept), Cost)
         == Sum(kept, Cost) + change.quantity * change.averageCost
  {
    InsertSum(NewPosition(symbol, change.quantity, change.averageCost, mark), kept, Cost);
  }

  /** The total cost changes by exactly what the replaced and the new position cost. */
  lemma RepositionCost(ps: seq<Position>, symbol: string, change: Change, mark: real)
    requires PositionsOk(ps)
    ensures Sum(Reposition(ps, symbol, change, mark), Cost)
         == Sum(ps, Cost) - CostOf(Find(ps, symbol)) + change.quantity * change.averageCost
  {
    WithoutSum(ps, symbol, Cost);
    if change.quantity == 0.0 {
      assert change.quantity * change.averageCost == 0.0;
    } else {
      InsertCost(symbol, change, mark, Without(ps, symbol));
    }
  }

  lemma FindIsOk(ps: seq<Position>, symbol: string)
    requires PositionsOk(ps)
    ensures Find(ps, symbol).Some? ==> Find(ps, symbol).value.quantity > 0.0
  {
    FindFacts(ps, symbol);
  }

  /** The new portfolio's totals, whatever the change was. */
  lemma ChangeBalances(f: Portfolio, key: string, change: Change, mark: real, time: Moment)
    requires Balanced(f) && change.cash >= 0.0 && change.quantity >= 0.0 && mark > 0.0
    requires change.cash + change.quantity * change.averageCost - change.realized == f.cash
      + CostOf(Find(f.positions, key))
    ensures Balanced(Rebooked(f, key, change, mark, time))
  {
    RepositionFacts(f.positions, key, change, mark, key);
    RepositionCost(f.positions, key, change, mark);
    ValueIsCostPlusUnrealized(Reposition(f.positions, key, change, mark));
  }

  lemma FillChangeBalances(f: Portfolio, key: string, side: Side, quantity: real, price: real, mark: real, time: Moment)
    requires Balanced(f) && quantity > 0.0 && price > 0.0 && mark > 0.0
    requires FillChange(f.cash, Find(f.positions, key), side, quantity, price).Some?
    ensures Balanced(Rebooked(f, key, FillChange(f.cash, Find(f.positions, key), side, quantity, price).value, mark,
                              time))
  {
    FindIsOk(f.positions, key);
    ChangeConserves(f.cash, Find(f.positions, key), side, quantity, price);
    ChangeBalances(f, key, FillChange(f.cash, Find(f.positions, key), side, quantity, price).value, mark, time);
  }

  /** Applying a fill keeps the books balanced. */
  lemma ApplyFillBalances(f: Portfolio, symbol: string, side: Side, quantity: real, price: real, mark: real,
                          time: Moment)
    requires Balanced(f) && ApplyFill(f, symbol, side, quantity, price, mark, time).Some?
    ensures var g := ApplyFill(f, symbol, side, quantity, price, mark, time).value.0;
      Balanced(g) && g.initialCash == f.initialCash && g.time == time
  {
    FillChangeBalances(f, Normalize(symbol), side, quantity, price, mark, time);
  }

  /** Applying a fill moves the symbol's quantity, and only that, by the fill; a sale never exceeds it. */
  lemma ApplyFillMoves(f: Portfolio, symbol: string, side: Side, quantity: real, price: real, mark: real,
                       time: Moment, other: string)
    requires Balanced(f) && ApplyFill(f, symbol, side, quantity, price, mark, time).Some?
    ensures var ps := ApplyFill(f, symbol, side, quantity, price, mark, time).value.0.positions;
      && quantity > 0.0 && (side.SELL? ==> quantity <= Quantity(f.positions, Normalize(symbol)))
      && Quantity(ps, other) == Quantity(f.positions, other)
           + if other != Normalize(symbol) then 0.0 else if side.BUY? then quantity else -quantity
  {
    var key := Normalize(symbol);
    FindIsOk(f.positions, key);
    ChangeConserves(f.cash, Find(f.positions, key), side, quantity, price);
    var change := FillChange(f.cash, Find(f.positions, key), side, quantity, price).value;
    RepositionFacts(f.positions, key, change, mark, other);
  }

  // ----- what a fill does, position by position

  /** `held` is the position in the symbol, or there is none. */
  ghost predicate IsHolding(ps: seq<Position>, symbol: string, held: Option<Position>) {
    if held.Some? then held.value in ps && held.value.symbol == symbol else forall p :: p in ps ==> p.symbol != symbol
  }

  lemma HoldingIsFound(ps: seq<Position>, symbol: string, held: Option<Position>)
    requires PositionsOk(ps) && IsHolding(ps, symbol, held)
    ensures Find(ps, symbol) == held
  {
    FindFacts(ps, symbol);
    if held.Some? {
      var i :| 0 <= i < |ps| && ps[i] == held.value;
      if Find(ps, symbol).Some? {
        var j :| 0 <= j < |ps| && ps[j] == Find(ps, symbol).value;
        assert i == j;
      }
    }
  }

  lemma {:induction false} InWithout(ps: seq<Position>, symbol: string, p: Position)
    ensures p in Without(ps, symbol) <==> p in ps && p.symbol != symbol
    decreases |ps|
  {
    if ps != [] {
      InWithout(ps[1..], symbol, p);
    }
  }

  lemma {:induction false} InInsert(q: Position, ps: seq<Position>, p: Position)
    ensures p in Insert(q, ps) <==> p == q || p in ps
    decreases |ps|
  {
    if ps != [] && !Before(q.symbol, ps[0].symbol) {
      InInsert(q, ps[1..], p);
    }
  }

  /** The position in `symbol` after a fill at `price`, marked at `mark`: a purchase averages what was paid, a sale
      keeps the average; its value and unrealised profit are at the mark. */
  predicate IsPositionAfter(p: Position, symbol: string, held: Option<Position>, side: Side, quantity: real,
                            price: real, mark: real)
  {
    && p.symbol == symbol && p.mark == mark
    && p.marketValue == p.quantity * mark && p.unrealized == (mark - p.averageCost) * p.quantity
    && match side
       case BUY =>
         var (q, cost) := if held.Some? then (held.value.quantity, held.value.averageCost) else (0.0, 0.0);
         p.quantity == q + quantity && p.averageCost * p.quantity == q * cost + quantity * price
       case SELL =>
         held.Some? && p.quantity == held.value.quantity - quantity && p.averageCost == held.value.averageCost
  }

  /** A purchase is a fill exactly if there is cash for it, a sale if that much is held. Cash moves by the notional at
      the fill price, and profit is realised by sales alone; the totals are those of the new positions. */
  lemma ApplyFillExplained(f: Portfolio, symbol: string, side: Side, quantity: real, price: real, mark: real,
                           time: Moment, held: Option<Position>)
    requires PositionsOk(f.positions) && IsHolding(f.positions, Normalize(symbol), held)
    ensures var r := ApplyFill(f, symbol, side, quantity, price, mark, time);
      && (r.Some? <==>
            && quantity > 0.0 && price > 0.0 && mark > 0.0
            && match side case BUY => quantity * price <= f.cash
               case SELL => held.Some? && quantity <= held.value.quantity)
      && (r.Some? ==>
            var (g, realized) := r.value;
            && g.initialCash == f.initialCash && g.time == time && g.realized == f.realized + realized
            && g.unrealized == Sum(g.positions, Unrealized) && g.equity == g.cash + Sum(g.positions, MarketValue)
            && g.cash == f.cash + (if side.BUY? then -(quantity * price) else quantity * price)
            && realized == if side.BUY? then 0.0 else (price - held.value.averageCost) * quantity)
  {
    HoldingIsFound(f.positions, Normalize(symbol), held);
    HeldIsPositive(f.positions, Normalize(symbol), held);
    if quantity > 0.0 && price > 0.0 && mark > 0.0 {
      ChangeExplained(f.cash, held, side, quantity, price);
    }
  }

  lemma ChangeExplained(cash: real, held: Option<Position>, side: Side, quantity: real, price: real)
    requires quantity > 0.0 && (held.Some? ==> held.value.quantity > 0.0)
    ensures var r := FillChange(cash, held, side, quantity, price);
      && (r.Some? <==>
            match side case BUY => quantity * price <= cash
            case SELL => held.Some? && quantity <= held.value.quantity)
      && (r.Some? ==> r.value.cash == cash + if side.BUY? then -(quantity * price) else quantity * price)
      && (r.Some? ==> r.value.realized == if side.BUY? then 0.0 else (price - held.value.averageCost) * quantity)
  {
  }

  lemma HeldIsPositive(ps: seq<Position>, symbol: string, held: Option<Position>)
    requires PositionsOk(ps) && IsHolding(ps, symbol, held)
    ensures held.Some? ==> held.value.quantity > 0.0
  {
    if held.Some? {
      var i :| 0 <= i < |ps| && ps[i] == held.value;
      assert PositionOk(ps[i]);
    }
  }

  ghost predicate PositionsAfter(ps: seq<Position>, ps': seq<Position>, symbol: string, held: Option<Position>,
                                 side: Side, quantity: real, price: real, mark: real)
  {
    && (forall p: Position :: p.symbol != symbol ==> (p in ps' <==> p in ps))
    && (forall p :: p in ps' && p.symbol == symbol ==> IsPositionAfter(p, symbol, held, side, quantity, price, mark))
    && ((exists p :: p in ps' && p.symbol == symbol)
        <==> side.BUY? || (held.Some? && held.value.quantity != quantity))
  }

  /** The position in the symbol is replaced, or goes when nothing is left of it, and every other position stays. */
  lemma FillMovesPosition(f: Portfolio, symbol: string, side: Side, quantity: real, price: real, mark: real,
                          time: Moment, held: Option<Position>)
    requires PositionsOk(f.positions) && IsHolding(f.positions, Normalize(symbol), held)
    requires ApplyFill(f, symbol, side, quantity, price, mark, time).Some?
    ensures PositionsAfter(f.positions, ApplyFill(f, symbol, side, quantity, price, mark, time).value.0.positions,
                           Normalize(symbol), held, side, quantity, price, mark)
  {
    var key := Normalize(symbol);
    HoldingIsFound(f.positions, key, held);
    HeldIsPositive(f.positions, key, held);
    PositionsFollow(f.positions, f.cash, key, held, side, quantity, price, mark);
  }

  lemma InReposition(ps: seq<Position>, symbol: string, change: Change, mark: real, p: Position)
    ensures p in Reposition(ps, symbol, change, mark) <==>
      || (p in ps && p.symbol != symbol)
      || (change.quantity != 0.0 && p == NewPosition(symbol, change.quantity, change.averageCost, mark))
  {
    InWithout(ps, symbol, p);
    InInsert(NewPosition(symbol, change.quantity, change.averageCost, mark), Without(ps, symbol), p);
  }

  lemma NewPositionFits(symbol: string, cash: real, held: Option<Position>, side: Side, quantity: real, price: real,
                        mark: real)
    requires (held.Some? ==> held.value.quantity > 0.0) && quantity > 0.0
    requires FillChange(cash, held, side, quantity, price).Some?
    ensures var change := FillChange(cash, held, side, quantity, price).value;
      && IsPositionAfter(NewPosition(symbol, change.quantity, change.averageCost, mark), symbol, held, side, quantity,
                         price, mark)
      && (change.quantity != 0.0 <==> side.BUY? || held.value.quantity != quantity)
  {
    if side.BUY? {
      var oldQuantity := if held.Some? then held.value.quantity else 0.0;
      var oldCost := if held.Some? then held.value.averageCost else 0.0;
      Quotient(oldQuantity * oldCost + quantity * price, oldQuantity + quantity);
    }
  }

  lemma PositionsFollow(ps: seq<Position>, cash: real, symbol: string, held: Option<Position>, side: Side,
                        quantity: real, price: real, mark: real)
    requires PositionsOk(ps) && Find(ps, symbol) == held && (held.Some? ==> held.value.quantity > 0.0)
    requires quantity > 0.0 && FillChange(cash, held, side, quantity, price).Some?
    ensures var change := FillChange(cash, held, side, quantity, price).value;
      PositionsAfter(ps, Reposition(ps, symbol, change, mark), symbol, held, side, quantity, price, mark)
  {
    var change := FillChange(cash, held, side, quantity, price).value;
    var p := NewPosition(symbol, change.quantity, change.averageCost, mark);
    forall q ensures q in Reposition(ps, symbol, change, mark)
        <==> (q in ps && q.symbol != symbol) || (change.quantity != 0.0 && q == p)
    {
      InReposition(ps, symbol, change, mark, q);
    }
    NewPositionFits(symbol, cash, held, side, quantity, price, mark);
    assert change.quantity != 0.0 ==> p in Reposition(ps, symbol, change, mark);
  }

  // ----- positions stay in symbol order

  ghost predicate InSymbolOrder(ps: seq<Position>) {
    forall i, j :: 0 <= i < j < |ps| ==> Before(ps[i].symbol, ps[j].symbol)
  }

  lemma {:induction false} BeforeIsTotal(a: string, b: string)
    ensures a == b || Before(a, b) || Before(b, a)
    decreases |a|
  {
    if a != "" && b != "" && a[0] == b[0] {
      BeforeIsTotal(a[1..], b[1..]);
      assert a == [a[0]] + a[1..] && b == [b[0]] + b[1..];
    }
  }

  lemma {:induction false} BeforeIsTransitive(a: string, b: string, c: string)
    requires Before(a, b) && Before(b, c)
    ensures Before(a, c)
    decreases |a|
  {
    if a != "" && a[0] == b[0] == c[0] {
      BeforeIsTransitive(a[1..], b[1..], c[1..]);
    }
  }

  lemma {:induction false} InsertKeepsSymbolOrder(p: Position, ps: seq<Position>)
    requires InSymbolOrder(ps) && forall q :: q in ps ==> q.symbol != p.symbol
    ensures InSymbolOrder(Insert(p, ps))
    decreases |ps|
  {
    if ps != [] {
      if Before(p.symbol, ps[0].symbol) {
        forall j | 0 < j < |ps| ensures Before(p.symbol, ps[j].symbol) {
          BeforeIsTransitive(p.symbol, ps[0].symbol, ps[j].symbol);
        }
      } else {
        BeforeIsTotal(p.symbol, ps[0].symbol);
        InsertKeepsSymbolOrder(p, ps[1..]);
        var rest := Insert(p, ps[1..]);
        forall j | 0 <= j < |rest| ensures Before(ps[0].symbol, rest[j].symbol) {
          InInsert(p, ps[1..], rest[j]);
        }
      }
    }
  }

  lemma {:induction false} WithoutKeepsSymbolOrder(ps: seq<Position>, symbol: string)
    requires InSymbolOrder(ps)
    ensures InSymbolOrder(Without(ps, symbol))
    decreases |ps|
  {
    if ps != [] {
      WithoutKeepsSymbolOrder(ps[1..], symbol);
      var rest := Without(ps[1..], symbol);
      forall j | 0 <= j < |rest| ensures Before(ps[0].symbol, rest[j].symbol) {
        InWithout(ps[1..], symbol, rest[j]);
      }
    }
  }

  /** Positions are kept in the order of their symbols. */
  lemma ApplyFillKeepsSymbolOrder(f: Portfolio, symbol: string, side: Side, quantity: real, price: real, mark: real,
                                  time: Moment)
    requires InSymbolOrder(f.positions) && ApplyFill(f, symbol, side, quantity, price, mark, time).Some?
    ensures InSymbolOrder(ApplyFill(f, symbol, side, quantity, price, mark, time).value.0.positions)
  {
    var key := Normalize(symbol);
    var change := FillChange(f.cash, Find(f.positions, key), side, quantity, price).value;
    WithoutKeepsSymbolOrder(f.positions, key);
    var p := NewPosition(key, change.quantity, change.averageCost, mark);
    forall q | q in Without(f.positions, key) ensures q.symbol != key {
      InWithout(f.positions, key, q);
    }
    InsertKeepsSymbolOrder(p, Without(f.positions, key));
  }

  // ----- simulate_proposal

  datatype Simulation = Simulation(
    status: Status, fill: Option<Fill>, portfolio: Portfolio, journal: seq<JournalEvent>, curve: seq<EquityPoint>)

  function Details(m: Market, note: Note): seq<(string, string)> {
    match note
    case ProposalReceived(symbol, quantity) => [("symbol", symbol), ("quantity", m.amountText(quantity))]
    case FillRecorded(price, quantity, realized, side, symbol) =>
      [("fill_price", m.amountText(price)), ("quantity", m.amountText(quantity)),
       ("realized_pnl", m.amountText(realized)), ("side", side), ("symbol", symbol)]
    case PortfolioUpdated(cash, equity) => [("cash", m.amountText(cash)), ("equity", m.amountText(equity))]
    case _ => []
  }

  function AppendEvent(m: Market, journal: seq<JournalEvent>, eventType: JournalEventType, requestId: string,
                       time: Moment, note: Note)
    : seq<JournalEvent> {
    journal + [JournalEvent(|journal| + 1, eventType, requestId, time, m.message(note), Details(m, note))]
  }

  predicate ValidInputs(f: Portfolio, proposal: Proposal, curve: seq<EquityPoint>) {
    && curve != [] && f.cash >= 0.0 && f.equity >= 0.0
    && (forall i :: 0 <= i < |curve| ==> curve[i].equity >= 0.0)
    && curve[|curve| - 1].equity == f.equity && curve[|curve| - 1].time.instant <= proposal.created.instant
  }

  function Unchanged(m: Market, f: Portfolio, proposal: Proposal, journal: seq<JournalEvent>, curve: seq<EquityPoint>,
                     note: Note, status: Status): Simulation {
    Simulation(status, None, f,
               AppendEvent(m, journal, if status.NOT_FILLED? then UNFILLED else REJECTION, proposal.requestId,
                           proposal.created, note),
               curve)
  }

  /** `dict(details).get(key)`: the last one counts. */
  function Detail(details: seq<(string, string)>, key: string): Option<string> {
    if details == [] then None
    else if details[|details| - 1].0 == key then Some(details[|details| - 1].1)
    else Detail(details[..|details| - 1], key)
  }

  /** The realised profit that a fill reports; nothing reported is as good as a number. */
  function OutcomeOf(m: Market, e: JournalEvent): Reading {
    var outcome := Detail(e.details, "realized_pnl");
    if e.eventType.FILL? && outcome.Some? then m.readAmount(outcome.value) else FINITE
  }

  predicate NoOutcome(m: Market, journal: seq<JournalEvent>, reading: Reading) {
    forall i :: 0 <= i < |journal| ==> OutcomeOf(m, journal[i]) != reading
  }

  /** Every outcome reads, and none is to be added to its opposite infinity. */
  predicate OutcomesRead(m: Market, journal: seq<JournalEvent>) {
    && NoOutcome(m, journal, UNREADABLE)
    && (NoOutcome(m, journal, PLUS_INFINITY) || NoOutcome(m, journal, MINUS_INFINITY))
  }

  /** Where `calculate_metrics` does not raise. */
  predicate MetricsExist(m: Market, journal: seq<JournalEvent>, curve: seq<EquityPoint>) {
    && curve != [] && (forall i :: 0 <= i < |curve| ==> curve[i].equity >= 0.0)
    && curve[0].equity > 0.0 && OutcomesRead(m, journal)
  }

  /** One proposal against one quote; None where the simulator raises, which it also does when the metrics of
      the outcome do not exist. */
  function Simulate(m: Market, f: Portfolio, proposal: Proposal, decision: Compliance, quote: Quote,
                    journal: seq<JournalEvent>, curve: seq<EquityPoint>): Option<Simulation> {
    match Outcome(m, f, proposal, decision, quote, journal, curve)
    case None => None
    case Some(sim) => if MetricsExist(m, sim.journal, sim.curve) then Some(sim) else None
  }

  /** The outcome before its metrics are taken. */
  function Outcome(m: Market, f: Portfolio, proposal: Proposal, decision: Compliance, quote: Quote,
                   journal: seq<JournalEvent>, curve: seq<EquityPoint>): Option<Simulation> {
    if !ValidInputs(f, proposal, curve) then None else
    var proposed := AppendEvent(m, journal, PROPOSED, proposal.requestId, proposal.created,
                                ProposalReceived(proposal.symbol, proposal.quantity));
    if !decision.approved || decision.requestId != proposal.requestId then
      Some(Unchanged(m, f, proposal, proposed, curve, ApprovalMissing, REJECTED))
    else
      var evaluation := m.evaluateFill(proposal, quote);
      if !evaluation.status.FILLED? then
        Some(Unchanged(m, f, proposal, proposed, curve, NotExecuted(evaluation.reason), evaluation.status))
      else if quote.last <= 0.0 then Some(Unchanged(m, f, proposal, proposed, curve, LastPriceMissing, REJECTED))
      else if evaluation.price.None? then None
      else
        var price := evaluation.price.value;
        match ApplyFill(f, proposal.symbol, proposal.side, proposal.quantity, price, quote.last, quote.time)
        case None => Some(Unchanged(m, f, proposal, proposed, curve, FillRefused, REJECTED))
        case Some((g, realized)) =>
          var fill := Fill(Normalize(proposal.symbol), SideText(proposal.side), proposal.quantity, quote.time);
          var filled := AppendEvent(m, proposed, FILL, proposal.requestId, quote.time,
                                    FillRecorded(price, proposal.quantity, realized, fill.side, fill.symbol));
          var changed := AppendEvent(m, filled, PORTFOLIO_CHANGE, proposal.requestId, quote.time,
                                     PortfolioUpdated(g.cash, g.equity));
          Some(Simulation(FILLED, Some(fill), g, changed, curve + [EquityPoint(quote.time, g.equity)]))
  }

  lemma {:induction false} ValuesAreNonnegative(ps: seq<Position>)
    requires forall i :: 0 <= i < |ps| ==> PositionOk(ps[i])
    ensures Sum(ps, MarketValue) >= 0.0
    decreases |ps|
  {
    if ps != [] {
      assert PositionOk(ps[0]) && ps[0].quantity * ps[0].mark > 0.0;
      ValuesAreNonnegative(ps[1..]);
    }
  }

  lemma EquityIsNonnegative(f: Portfolio)
    requires Balanced(f)
    ensures f.equity >= 0.0
  {
    ValueIsCostPlusUnrealized(f.positions);
    ValuesAreNonnegative(f.positions);
  }

  /** The event reports this text as its realised profit: it is a fill, and no later detail says otherwise. */
  ghost predicate Reports(e: JournalEvent, text: string) {
    && e.eventType.FILL?
    && exists k :: 0 <= k < |e.details| && e.details[k] == ("realized_pnl", text)
                   && forall l :: k < l < |e.details| ==> e.details[l].0 != "realized_pnl"
  }

  ghost predicate ReportsReading(m: Market, e: JournalEvent, reading: Reading) {
    exists text :: Reports(e, text) && m.readAmount(text) == reading
  }

  lemma {:induction false} DetailPosition(details: seq<(string, string)>, key: string) returns (k: int)
    ensures -1 <= k < |details| && Detail(details, key) == if k < 0 then None else Some(details[k].1)
    ensures k >= 0 ==> details[k].0 == key
    ensures forall l :: k < l < |details| ==> details[l].0 != key
    decreases |details|
  {
    k := |details| - 1;
    if details != [] && details[k].0 != key {
      k := DetailPosition(details[..|details| - 1], key);
    }
  }

  lemma DetailIsLast(details: seq<(string, string)>, key: string, text: string)
    ensures Detail(details, key) == Some(text) <==>
      exists k :: 0 <= k < |details| && details[k] == (key, text)
        && forall l :: k < l < |details| ==> details[l].0 != key
  {
    var k := DetailPosition(details, key);
    assert k >= 0 && details[k].1 == text ==> details[k] == (key, text);
  }

  lemma OutcomeReports(m: Market, e: JournalEvent, reading: Reading)
    requires !reading.FINITE?
    ensures OutcomeOf(m, e) == reading <==> ReportsReading(m, e, reading)
  {
    forall text ensures Reports(e, text) <==> e.eventType.FILL? && Detail(e.details, "realized_pnl") == Some(text) {
      DetailIsLast(e.details, "realized_pnl", text);
    }
  }

  /** The metrics can read a journal in which no fill reports what is not a number, and not one infinity beside the
      other. */
  lemma OutcomesReadIff(m: Market, journal: seq<JournalEvent>)
    ensures OutcomesRead(m, journal) <==>
      && (forall e :: e in journal ==> !ReportsReading(m, e, UNREADABLE))
      && ((forall e :: e in journal ==> !ReportsReading(m, e, PLUS_INFINITY))
          || (forall e :: e in journal ==> !ReportsReading(m, e, MINUS_INFINITY)))
  {
    forall e: JournalEvent, reading: Reading | !reading.FINITE?
      ensures OutcomeOf(m, e) == reading <==> ReportsReading(m, e, reading)
    {
      OutcomeReports(m, e, reading);
    }
    forall reading: Reading | !reading.FINITE?
      ensures NoOutcome(m, journal, reading) <==> forall e :: e in journal ==> !ReportsReading(m, e, reading)
    {
      if NoOutcome(m, journal, reading) {
        forall e | e in journal ensures !ReportsReading(m, e, reading) {
          var i :| 0 <= i < |journal| && journal[i] == e;
        }
      }
    }
  }

  lemma DetailOfLast(details: seq<(string, string)>, pair: (string, string), key: string)
    ensures Detail(details + [pair], key) == if pair.0 == key then Some(pair.1) else Detail(details, key)
  {
    assert (details + [pair])[..|details|] == details;
  }

  lemma RecordedOutcome(m: Market, price: real, quantity: real, realized: real, side: string, symbol: string)
    ensures Detail(Details(m, FillRecorded(price, quantity, realized, side, symbol)), "realized_pnl")
         == Some(m.amountText(realized))
  {
    var first := [("fill_price", m.amountText(price)), ("quantity", m.amountText(quantity))];
    var third, fourth, fifth := ("realized_pnl", m.amountText(realized)), ("side", side), ("symbol", symbol);
    assert first + [third] + [fourth] + [fifth] == Details(m, FillRecorded(price, quantity, realized, side, symbol));
    DetailOfLast(first, third, "realized_pnl");
    DetailOfLast(first + [third], fourth, "realized_pnl");
    DetailOfLast(first + [third] + [fourth], fifth, "realized_pnl");
    assert |"side"| == 4 && |"symbol"| == 6 && |"realized_pnl"| == 12;
  }

  /** Events that the simulator adds report numbers. */
  lemma AppendedOutcome(m: Market, journal: seq<JournalEvent>, eventType: JournalEventType, requestId: string,
                        time: Moment, note: Note, reading: Reading)
    requires m.WritesAmounts() && (eventType.FILL? ==> note.FillRecorded?) && !reading.FINITE?
    ensures NoOutcome(m, AppendEvent(m, journal, eventType, requestId, time, note), reading)
      <==> NoOutcome(m, journal, reading)
  {
    var more := AppendEvent(m, journal, eventType, requestId, time, note);
    assert forall i :: 0 <= i < |journal| ==> more[i] == journal[i];
    if note.FillRecorded? {
      RecordedOutcome(m, note.price, note.filledQuantity, note.realized, note.side, note.filledSymbol);
    }
    assert OutcomeOf(m, more[|journal|]).FINITE?;
  }

  /** So they do not change whether the outcomes read. */
  lemma AppendedOutcomes(m: Market, journal: seq<JournalEvent>, eventType: JournalEventType, requestId: string,
                         time: Moment, note: Note)
    requires m.WritesAmounts() && (eventType.FILL? ==> note.FillRecorded?)
    ensures OutcomesRead(m, AppendEvent(m, journal, eventType, requestId, time, note)) <==> OutcomesRead(m, journal)
  {
    AppendedOutcome(m, journal, eventType, requestId, time, note, UNREADABLE);
    AppendedOutcome(m, journal, eventType, requestId, time, note, PLUS_INFINITY);
    AppendedOutcome(m, journal, eventType, requestId, time, note, MINUS_INFINITY);
  }

  /** The order is carried out as far as its price. */
  predicate ReachesPrice(m: Market, proposal: Proposal, decision: Compliance, quote: Quote) {
    && decision.approved && decision.requestId == proposal.requestId
    && m.evaluateFill(proposal, quote).status.FILLED? && quote.last > 0.0
  }

  /** On balanced books, with amounts written as numbers, the simulator raises on inconsistent inputs, on a
      curve that does not start above zero, on a journal with unreadable outcomes, on a fill without a price, and
      on nothing else. */
  lemma SimulationSucceeds(m: Market, f: Portfolio, proposal: Proposal, decision: Compliance, quote: Quote,
                           journal: seq<JournalEvent>, curve: seq<EquityPoint>)
    requires Balanced(f) && m.WritesAmounts()
    ensures Simulate(m, f, proposal, decision, quote, journal, curve).Some? <==>
      && curve != [] && curve[0].equity > 0.0 && (forall i :: 0 <= i < |curve| ==> curve[i].equity >= 0.0)
      && curve[|curve| - 1].equity == f.equity && curve[|curve| - 1].time.instant <= proposal.created.instant
      && OutcomesRead(m, journal)
      && (ReachesPrice(m, proposal, decision, quote) ==> m.evaluateFill(proposal, quote).price.Some?)
  {
    var outcome := Outcome(m, f, proposal, decision, quote, journal, curve);
    EquityIsNonnegative(f);
    if outcome.Some? {
      OutcomeFacts(m, f, proposal, decision, quote, journal, curve);
    }
  }

  /** The outcome's curve starts where it did and stays above zero; its journal reads as the one before. */
  lemma OutcomeFacts(m: Market, f: Portfolio, proposal: Proposal, decision: Compliance, quote: Quote,
                     journal: seq<JournalEvent>, curve: seq<EquityPoint>)
    requires Balanced(f) && m.WritesAmounts() && Outcome(m, f, proposal, decision, quote, journal, curve).Some?
    ensures var sim := Outcome(m, f, proposal, decision, quote, journal, curve).value;
      && curve <= sim.curve && (forall i :: 0 <= i < |sim.curve| ==> sim.curve[i].equity >= 0.0)
      && (OutcomesRead(m, sim.journal) <==> OutcomesRead(m, journal))
  {
    var sim := Outcome(m, f, proposal, decision, quote, journal, curve).value;
    var received := ProposalReceived(proposal.symbol, proposal.quantity);
    AppendedOutcomes(m, journal, PROPOSED, proposal.requestId, proposal.created, received);
    var proposed := AppendEvent(m, journal, PROPOSED, proposal.requestId, proposal.created, received);
    var evaluation := m.evaluateFill(proposal, quote);
    if sim.fill.Some? {
      var (g, realized) := ApplyFill(f, proposal.symbol, proposal.side, proposal.quantity, evaluation.price.value,
                                     quote.last, quote.time).value;
      ApplyFillBalances(f, proposal.symbol, proposal.side, proposal.quantity, evaluation.price.value, quote.last,
                        quote.time);
      EquityIsNonnegative(g);
      FillOutcomes(m, proposed, proposal, quote, evaluation.price.value, g, realized, sim.fill.value);
    } else {
      forall note: Note, kind: JournalEventType | !kind.FILL?
        ensures OutcomesRead(m, AppendEvent(m, proposed, kind, proposal.requestId, proposal.created, note))
          <==> OutcomesRead(m, proposed)
      {
        AppendedOutcomes(m, proposed, kind, proposal.requestId, proposal.created, note);
      }
    }
  }

  lemma FillOutcomes(m: Market, proposed: seq<JournalEvent>, proposal: Proposal, quote: Quote, price: real,
                     g: Portfolio, realized: real, fill: Fill)
    requires m.WritesAmounts()
    ensures var filled := AppendEvent(m, proposed, FILL, proposal.requestId, quote.time,
                                      FillRecorded(price, proposal.quantity, realized, fill.side, fill.symbol));
      var changed := AppendEvent(m, filled, PORTFOLIO_CHANGE, proposal.requestId, quote.time,
                                 PortfolioUpdated(g.cash, g.equity));
      OutcomesRead(m, changed) <==> OutcomesRead(m, proposed)
  {
    var note := FillRecorded(price, proposal.quantity, realized, fill.side, fill.symbol);
    AppendedOutcomes(m, proposed, FILL, proposal.requestId, quote.time, note);
    AppendedOutcomes(m, AppendEvent(m, proposed, FILL, proposal.requestId, quote.time, note), PORTFOLIO_CHANGE,
                     proposal.requestId, quote.time, PortfolioUpdated(g.cash, g.equity));
  }

  /** The journal has grown by events of these types at these times, numbered on, about this request. */
  predicate Logs(before: seq<JournalEvent>, after: seq<JournalEvent>, requestId: string,
                 entries: seq<(JournalEventType, Moment)>)
  {
    && before <= after && |after| == |before| + |entries|
    && forall i :: 0 <= i < |entries| ==>
         var e := after[|before| + i];
         e.sequence == |before| + i + 1 && (e.eventType, e.time) == entries[i] && e.requestId == requestId
  }

  ghost predicate CarriesOut(m: Market, f: Portfolio, proposal: Proposal, decision: Compliance, quote: Quote) {
    var e := m.evaluateFill(proposal, quote);
    && decision.approved && decision.requestId == proposal.requestId && e.status.FILLED? && quote.last > 0.0
    && e.price.Some?
    && ApplyFill(f, proposal.symbol, proposal.side, proposal.quantity, e.price.value, quote.last, quote.time).Some?
  }

  lemma FilledExplained(m: Market, f: Portfolio, proposal: Proposal, decision: Compliance, quote: Quote,
                        journal: seq<JournalEvent>, curve: seq<EquityPoint>)
    requires Simulate(m, f, proposal, decision, quote, journal, curve).Some?
      && CarriesOut(m, f, proposal, decision, quote)
    ensures var s := Simulate(m, f, proposal, decision, quote, journal, curve).value;
      var price := m.evaluateFill(proposal, quote).price.value;
      var applied := ApplyFill(f, proposal.symbol, proposal.side, proposal.quantity, price, quote.last, quote.time);
      && s.status == FILLED && s.portfolio == applied.value.0
      && s.fill == Some(Fill(Normalize(proposal.symbol), if proposal.side.BUY? then "BUY" else "SELL",
                             proposal.quantity, quote.time))
      && s.curve == curve + [EquityPoint(quote.time, s.portfolio.equity)]
      && Logs(journal, s.journal, proposal.requestId,
              [(PROPOSED, proposal.created), (FILL, quote.time), (PORTFOLIO_CHANGE, quote.time)])
  {
  }

  lemma UnfilledExplained(m: Market, f: Portfolio, proposal: Proposal, decision: Compliance, quote: Quote,
                          journal: seq<JournalEvent>, curve: seq<EquityPoint>)
    requires Simulate(m, f, proposal, decision, quote, journal, curve).Some?
      && !CarriesOut(m, f, proposal, decision, quote)
    ensures var s := Simulate(m, f, proposal, decision, quote, journal, curve).value;
      var allowed := decision.approved && decision.requestId == proposal.requestId;
      var ending := if s.status.NOT_FILLED? then UNFILLED else REJECTION;
      && s.fill == None && s.portfolio == f && s.curve == curve
      && s.status == (if allowed && m.evaluateFill(proposal, quote).status.NOT_FILLED? then NOT_FILLED else REJECTED)
      && Logs(journal, s.journal, proposal.requestId, [(PROPOSED, proposal.created), (ending, proposal.created)])
  {
  }

  /** Which order is carried out, and how it ends otherwise: without its approval it is rejected; the fill rule may
      reject it or leave it unfilled; without a last price, or where the portfolio refuses the fill, it is rejected.
      Whatever is not filled changes nothing but the journal; what is filled is filled whole, at the rule's price,
      marked at the last price, and adds one point to the curve. */
  lemma SimulationExplained(m: Market, f: Portfolio, proposal: Proposal, decision: Compliance, quote: Quote,
                            journal: seq<JournalEvent>, curve: seq<EquityPoint>)
    requires Simulate(m, f, proposal, decision, quote, journal, curve).Some?
    ensures var s := Simulate(m, f, proposal, decision, quote, journal, curve).value;
      var e := m.evaluateFill(proposal, quote);
      var allowed := decision.approved && decision.requestId == proposal.requestId;
      if allowed && e.status.FILLED? && quote.last > 0.0
         && ApplyFill(f, proposal.symbol, proposal.side, proposal.quantity, e.price.value, quote.last, quote.time).Some?
      then
        var applied :=
          ApplyFill(f, proposal.symbol, proposal.side, proposal.quantity, e.price.value, quote.last, quote.time);
        && s.status == FILLED && s.portfolio == applied.value.0
        && s.fill == Some(Fill(Normalize(proposal.symbol), if proposal.side.BUY? then "BUY" else "SELL",
                               proposal.quantity, quote.time))
        && s.curve == curve + [EquityPoint(quote.time, s.portfolio.equity)]
        && Logs(journal, s.journal, proposal.requestId,
                [(PROPOSED, proposal.created), (FILL, quote.time), (PORTFOLIO_CHANGE, quote.time)])
      else
        && s.fill == None && s.portfolio == f && s.curve == curve
        && s.status == (if allowed && e.status.NOT_FILLED? then NOT_FILLED else REJECTED)
        && Logs(journal, s.journal, proposal.requestId,
                [(PROPOSED, proposal.created),
                 (if s.status.NOT_FILLED? then UNFILLED else REJECTION, proposal.created)])
  {
    if CarriesOut(m, f, proposal, decision, quote) {
      FilledExplained(m, f, proposal, decision, quote, journal, curve);
    } else {
      UnfilledExplained(m, f, proposal, decision, quote, journal, curve);
    }
  }

  /** The purchase lots and the portfolio tell the same story about every symbol. */
  ghost predicate LotsMatch(lots: seq<Lot>, f: Portfolio) {
    forall symbol {:trigger Held(lots, symbol)} :: Held(lots, symbol) == Quantity(f.positions, symbol)
  }

  predicate OwnLot(lot: Lot) {
    lot.symbol == Normalize(lot.symbol) && lot.funding.SETTLED_CASH? && lot.settlementDate.None?
  }

  /** Lots that this engine creates: valid, in normal form, and never tied to a settlement date. */
  predicate OwnLots(lots: seq<Lot>) {
    ValidLots(lots) && forall i :: 0 <= i < |lots| ==> OwnLot(lots[i])
  }

  lemma {:induction false} SellKeepsOwn(lots: seq<Lot>, symbol: string, quantity: real)
    requires OwnLots(lots) && quantity >= 0.0
    ensures OwnLots(Sell(lots, symbol, quantity))
    decreases |lots|
  {
    SellKeepsValid(lots, symbol, quantity);
    if lots != [] {
      assert OwnLots(lots[1..]) by {
        assert forall i :: 0 <= i < |lots[1..]| ==> lots[1..][i] == lots[i + 1];
      }
      SellKeepsOwn(lots[1..], symbol, quantity - Used(lots[0], symbol, quantity));
    }
  }

  /** A simulation either fills the whole proposal or changes nothing but its journal. */
  ghost predicate Shape(f: Portfolio, proposal: Proposal, quote: Quote, curve: seq<EquityPoint>, s: Simulation,
                        price: real)
  {
    if s.fill.None? then !s.status.FILLED? && s.portfolio == f && s.curve == curve
    else
      var applied := ApplyFill(f, proposal.symbol, proposal.side, proposal.quantity, price, quote.last, quote.time);
      && s.status.FILLED? && applied.Some? && s.portfolio == applied.value.0
      && s.fill.value == Fill(Normalize(proposal.symbol), SideText(proposal.side), proposal.quantity, quote.time)
      && s.curve == curve + [EquityPoint(quote.time, s.portfolio.equity)]
  }

  lemma SimulationShape(m: Market, f: Portfolio, proposal: Proposal, decision: Compliance, quote: Quote,
                        journal: seq<JournalEvent>, curve: seq<EquityPoint>) returns (price: real)
    requires Simulate(m, f, proposal, decision, quote, journal, curve).Some?
    ensures Shape(f, proposal, quote, curve, Simulate(m, f, proposal, decision, quote, journal, curve).value, price)
  {
    var evaluation := m.evaluateFill(proposal, quote);
    price := if evaluation.price.Some? then evaluation.price.value else 0.0;
  }

  /** After any simulated proposal the books still balance and the updated lots still match them: buys add a
      lot of what was bought, sales consume exactly what was sold. */
  lemma SimulationKeepsBooks(f: Portfolio, proposal: Proposal, quote: Quote, curve: seq<EquityPoint>, s: Simulation,
                             price: real, lots: seq<Lot>)
    requires Balanced(f) && OwnLots(lots) && LotsMatch(lots, f) && !IsBlank(Normalize(proposal.symbol))
    requires Shape(f, proposal, quote, curve, s, price)
    ensures Balanced(s.portfolio) && s.portfolio.initialCash == f.initialCash
    ensures OwnLots(Updated(lots, s.fill)) && LotsMatch(Updated(lots, s.fill), s.portfolio)
  {
    if s.fill.Some? {
      FillKeepsBooks(f, proposal, price, quote, lots, s.fill.value, s.portfolio);
    }
  }

  lemma FillKeepsBooks(f: Portfolio, proposal: Proposal, price: real, quote: Quote, lots: seq<Lot>, fill: Fill,
                       g: Portfolio)
    requires Balanced(f) && OwnLots(lots) && LotsMatch(lots, f) && !IsBlank(fill.symbol)
    requires ApplyFill(f, proposal.symbol, proposal.side, proposal.quantity, price, quote.last, quote.time).Some?
    requires g == ApplyFill(f, proposal.symbol, proposal.side, proposal.quantity, price, quote.last, quote.time).value.0
    requires fill == Fill(Normalize(proposal.symbol), SideText(proposal.side), proposal.quantity, quote.time)
    ensures Balanced(g) && g.initialCash == f.initialCash
    ensures OwnLots(Updated(lots, Some(fill))) && LotsMatch(Updated(lots, Some(fill)), g)
  {
    ApplyFillBalances(f, proposal.symbol, proposal.side, proposal.quantity, price, quote.last, quote.time);
    ApplyFillMoves(f, proposal.symbol, proposal.side, proposal.quantity, price, quote.last, quote.time, fill.symbol);
    assert Held(lots, fill.symbol) == Quantity(f.positions, fill.symbol);
    var lots' := Updated(lots, Some(fill));
    forall symbol ensures Held(lots', symbol) == Quantity(g.positions, symbol) {
      ApplyFillMoves(f, proposal.symbol, proposal.side, proposal.quantity, price, quote.last, quote.time, symbol);
      FillMovesLots(lots, fill, proposal.side, symbol);
      assert Held(lots, symbol) == Quantity(f.positions, symbol);
    }
    NormalizeTwice(proposal.symbol);
    UpdateKeepsOwn(lots, fill, proposal.side);
  }

  lemma UpdateKeepsOwn(lots: seq<Lot>, fill: Fill, side: Side)
    requires OwnLots(lots) && fill.quantity > 0.0 && fill.side == SideText(side)
    requires !IsBlank(fill.symbol) && fill.symbol == Normalize(fill.symbol)
    ensures OwnLots(Updated(lots, Some(fill)))
  {
    if side.SELL? {
      assert fill.side[0] == 'S';
      SellKeepsOwn(lots, fill.symbol, fill.quantity);
    }
  }

  lemma FillMovesLots(lots: seq<Lot>, fill: Fill, side: Side, symbol: string)
    requires ValidLots(lots) && fill.quantity > 0.0 && fill.side == SideText(side)
    ensures symbol != fill.symbol ==> Held(Updated(lots, Some(fill)), symbol) == Held(lots, symbol)
    ensures side.BUY? ==> Held(Updated(lots, Some(fill)), fill.symbol) == Held(lots, fill.symbol) + fill.quantity
    ensures side.SELL? && fill.quantity <= Held(lots, fill.symbol)
      ==> Held(Updated(lots, Some(fill)), fill.symbol) == Held(lots, fill.symbol) - fill.quantity
  {
    if side.BUY? {
      var lot := Lot(fill.symbol, fill.quantity, fill.moment, SETTLED_CASH, None, fill.quantity);
      HeldConcat(lots, [lot], symbol);
      HeldConcat(lots, [lot], fill.symbol);
      assert [lot][1..] == [];
    } else {
      assert fill.side[0] == 'S';
      SellConserves(lots, fill.symbol, fill.quantity);
      if symbol != fill.symbol {
        SellLeavesOthers(lots, fill.symbol, fill.quantity, symbol);
      }
    }
  }
}
