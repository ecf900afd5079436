/** Purchase lots and the first-in-first-out consumption of them by fills. */
module PurchaseLots {
  import opened Numbers
  import opened Sequences
  import opened SettlementCalendar
  import opened Text
  import opened Wrappers

  datatype FundingSource = SETTLED_CASH | UNSETTLED_SALE_PROCEEDS | PROVISIONAL_DEPOSIT | UNKNOWN

  /** A timezone-aware moment and the calendar date it falls on in its own zone. */
  datatype Moment = Moment(instant: int, date: Date)

  datatype Lot = Lot(
    symbol: string, quantity: real, purchased: Moment, funding: FundingSource,
    settlementDate: Option<Date>, remaining: real)

  predicate ValidLot(lot: Lot) {
    !IsBlank(lot.symbol) && lot.quantity > 0.0 && 0.0 <= lot.remaining <= lot.quantity
  }

  predicate ValidLots(lots: seq<Lot>) {
    forall i :: 0 <= i < |lots| ==> ValidLot(lots[i])
  }

  /** What is left of `symbol`, spelled exactly so. */
  function Held(lots: seq<Lot>, symbol: string): real {
    if lots == [] then 0.0
    else (if lots[0].symbol == symbol then lots[0].remaining else 0.0) + Held(lots[1..], symbol)
  }

  datatype Fill = Fill(symbol: string, side: string, quantity: real, moment: Moment)

  /** How much of a sale of `remaining` the lot provides. */
  function Used(lot: Lot, symbol: string, remaining: real): real {
    if lot.symbol == symbol && remaining > 0.0 then Min(remaining, lot.remaining) else 0.0
  }

  function Sell(lots: seq<Lot>, symbol: string, remaining: real): seq<Lot> {
    if lots == [] then []
    else
      var used := Used(lots[0], symbol, remaining);
      var lot := lots[0].(remaining := lots[0].remaining - used);
      (if lot.remaining > 0.0 then [lot] else []) + Sell(lots[1..], symbol, remaining - used)
  }

  function Updated(lots: seq<Lot>, fill: Option<Fill>): seq<Lot> {
    match fill
    case None => lots
    case Some(f) =>
      if f.side == "BUY" then lots + [Lot(f.symbol, f.quantity, f.moment, SETTLED_CASH, None, f.quantity)]
      else Sell(lots, f.symbol, f.quantity)
  }

  /** One round of the loop: what is left of lot `i`, if anything, moves from what is to be sold to what is kept. */
  lemma SellStep(updated: seq<Lot>, lots: seq<Lot>, i: nat, symbol: string, remaining: real, used: real)
    requires i < |lots| && used == Used(lots[i], symbol, remaining)
    ensures var lot := lots[i].(remaining := lots[i].remaining - used);
      updated + Sell(lots[i..], symbol, remaining)
        == (if lot.remaining > 0.0 then updated + [lot] else updated) + Sell(lots[i + 1..], symbol, remaining - used)
  {
    var lot := lots[i].(remaining := lots[i].remaining - used);
    assert lots[i..][1..] == lots[i + 1..];
    Associates(updated, if lot.remaining > 0.0 then [lot] else [], Sell(lots[i + 1..], symbol, remaining - used));
    assert updated + [] == updated;
  }

  /** The loop of the program. */
  method UpdateLots(lots: seq<Lot>, fill: Option<Fill>) returns (r: seq<Lot>)
    ensures r == Updated(lots, fill)
    ensures IsUpdate(lots, fill, r)
  {
    UpdatedIsUpdate(lots, fill);
    if fill.None? {
      return lots;
    }
    var f := fill.value;
    if f.side == "BUY" {
      return lots + [Lot(f.symbol, f.quantity, f.moment, SETTLED_CASH, None, f.quantity)];
    }
    r := SellLots(lots, f.symbol, f.quantity);
  }

  /** The loop over the lots. */
  method SellLots(lots: seq<Lot>, symbol: string, quantity: real) returns (updated: seq<Lot>)
    ensures updated == Sell(lots, symbol, quantity)
  {
    var remaining := quantity;
    updated := [];
    assert lots[0..] == lots;
    for i := 0 to |lots|
      invariant updated + Sell(lots[i..], symbol, remaining) == Sell(lots, symbol, quantity)
    {
      var lot := lots[i];
      SellStep(updated, lots, i, symbol, remaining, Used(lot, symbol, remaining));
      if lot.symbol == symbol && remaining > 0.0 {
        var used := Min(remaining, lot.remaining);
        remaining := remaining - used;
        lot := lot.(remaining := lot.remaining - used);
      } else {
        assert lot == lot.(remaining := lot.remaining - 0.0);
      }
      if lot.remaining > 0.0 {
        updated := updated + [lot];
      }
    }
    assert lots[|lots|..] == [] && updated + [] == updated;
  }

  // ----- conservation

  lemma {:induction false} HeldConcat(a: seq<Lot>, b: seq<Lot>, symbol: string)
    ensures Held(a + b, symbol) == Held(a, symbol) + Held(b, symbol)
    decreases |a|
  {
    if a == [] {
      assert a + b == b;
    } else {
      assert (a + b)[1..] == a[1..] + b;
      HeldConcat(a[1..], b, symbol);
    }
  }

  lemma {:induction false} HeldIsNonnegative(lots: seq<Lot>, symbol: string)
    requires ValidLots(lots)
    ensures Held(lots, symbol) >= 0.0
    decreases |lots|
  {
    if lots != [] {
      HeldIsNonnegative(lots[1..], symbol);
    }
  }

  lemma {:induction false} SellKeepsValid(lots: seq<Lot>, symbol: string, quantity: real)
    requires ValidLots(lots) && quantity >= 0.0
    ensures ValidLots(Sell(lots, symbol, quantity))
    ensures forall i :: 0 <= i < |Sell(lots, symbol, quantity)| ==> Sell(lots, symbol, quantity)[i].remaining > 0.0
    decreases |lots|
  {
    if lots != [] {
      var used := Used(lots[0], symbol, quantity);
      SellKeepsValid(lots[1..], symbol, quantity - used);
      KeptHead(lots[0], used, Sell(lots[1..], symbol, quantity - used));
    }
  }

  lemma KeptHead(lot: Lot, used: real, rest: seq<Lot>)
    requires ValidLot(lot) && 0.0 <= used <= lot.remaining && ValidLots(rest)
    requires forall i :: 0 <= i < |rest| ==> rest[i].remaining > 0.0
    ensures var kept := lot.(remaining := lot.remaining - used);
      var left := (if kept.remaining > 0.0 then [kept] else []) + rest;
      ValidLots(left) && forall i :: 0 <= i < |left| ==> left[i].remaining > 0.0
  {
    assert ValidLot(lot.(remaining := lot.remaining - used));
  }

  /** What is held of a lot that keeps the rest after a sale, together with the lots behind it. */
  lemma SoldHead(lot: Lot, used: real, rest: seq<Lot>, symbol: string)
    requires used <= lot.remaining
    ensures var kept := lot.(remaining := lot.remaining - used);
      Held((if kept.remaining > 0.0 then [kept] else []) + rest, symbol)
        == (if lot.symbol == symbol then lot.remaining - used else 0.0) + Held(rest, symbol)
  {
    var kept := lot.(remaining := lot.remaining - used);
    HeldConcat(if kept.remaining > 0.0 then [kept] else [], rest, symbol);
    assert [kept][1..] == [];
  }

  /** A sale takes what it asks for, up to what is held, from its own symbol. */
  lemma {:induction false} SellConserves(lots: seq<Lot>, symbol: string, quantity: real)
    requires ValidLots(lots) && quantity >= 0.0
    ensures Held(Sell(lots, symbol, quantity), symbol) == Held(lots, symbol) - Min(quantity, Held(lots, symbol))
    decreases |lots|
  {
    if lots != [] {
      var used := Used(lots[0], symbol, quantity);
      SellConserves(lots[1..], symbol, quantity - used);
      HeldIsNonnegative(lots[1..], symbol);
      SoldHead(lots[0], used, Sell(lots[1..], symbol, quantity - used), symbol);
    }
  }

  /** A sale takes nothing from any other symbol. */
  lemma {:induction false} SellLeavesOthers(lots: seq<Lot>, symbol: string, quantity: real, other: string)
    requires ValidLots(lots) && other != symbol
    ensures Held(Sell(lots, symbol, quantity), other) == Held(lots, other)
    decreases |lots|
  {
    if lots != [] {
      var used := Used(lots[0], symbol, quantity);
      SellLeavesOthers(lots[1..], symbol, quantity - used, other);
      SoldHead(lots[0], used, Sell(lots[1..], symbol, quantity - used), other);
    }
  }

  // ----- first in, first out

  /** What first-in-first-out leaves of lot `i`: the sale reaches it only after emptying those before it. */
  function FifoLeft(lots: seq<Lot>, symbol: string, quantity: real, i: nat): real
    requires i < |lots|
  {
    if lots[i].symbol != symbol then lots[i].remaining
    else Max(0.0, lots[i].remaining - Max(0.0, quantity - Held(lots[..i], symbol)))
  }

  function Unexhausted(lots: seq<Lot>): seq<Lot> {
    if lots == [] then []
    else (if lots[0].remaining > 0.0 then [lots[0]] else []) + Unexhausted(lots[1..])
  }

  function Reduced(lots: seq<Lot>, symbol: string, quantity: real): seq<Lot> {
    seq(|lots|, i requires 0 <= i < |lots| => lots[i].(remaining := FifoLeft(lots, symbol, quantity, i)))
  }

  function Fifo(lots: seq<Lot>, symbol: string, quantity: real): seq<Lot> {
    Unexhausted(Reduced(lots, symbol, quantity))
  }

  lemma FifoTail(lots: seq<Lot>, symbol: string, quantity: real, i: nat)
    requires ValidLots(lots) && quantity >= 0.0 && 0 < i < |lots|
    ensures FifoLeft(lots, symbol, quantity, i)
         == FifoLeft(lots[1..], symbol, quantity - Used(lots[0], symbol, quantity), i - 1)
  {
    assert lots[..i][1..] == lots[1..][..i - 1];
    HeldIsNonnegative(lots[1..][..i - 1], symbol);
  }

  lemma ReducedTail(lots: seq<Lot>, symbol: string, quantity: real)
    requires ValidLots(lots) && quantity >= 0.0 && lots != []
    ensures var used, reduced := Used(lots[0], symbol, quantity), Reduced(lots, symbol, quantity);
      && reduced[0] == lots[0].(remaining := lots[0].remaining - used)
      && reduced[1..] == Reduced(lots[1..], symbol, quantity - used)
  {
    var rest := Reduced(lots[1..], symbol, quantity - Used(lots[0], symbol, quantity));
    forall i | 0 < i < |lots| ensures Reduced(lots, symbol, quantity)[i] == rest[i - 1] {
      FifoTail(lots, symbol, quantity, i);
    }
  }

  /** The loop drops exactly the exhausted lots, keeps the order, and consumes strictly oldest first. */
  lemma {:induction false} SellIsFifo(lots: seq<Lot>, symbol: string, quantity: real)
    requires ValidLots(lots) && quantity >= 0.0
    ensures Sell(lots, symbol, quantity) == Fifo(lots, symbol, quantity)
    decreases |lots|
  {
    if lots != [] {
      ReducedTail(lots, symbol, quantity);
      SellIsFifo(lots[1..], symbol, quantity - Used(lots[0], symbol, quantity));
    }
  }

  /** Nothing changes without a fill; a purchase adds one lot, booked as settled cash and whole; a sale consumes the
      lots of its symbol first in, first out. */
  ghost predicate IsUpdate(lots: seq<Lot>, fill: Option<Fill>, r: seq<Lot>) {
    match fill
    case None => r == lots
    case Some(f) =>
      if f.side == "BUY" then r == lots + [Lot(f.symbol, f.quantity, f.moment, SETTLED_CASH, None, f.quantity)]
      else ValidLots(lots) && f.quantity >= 0.0 ==> r == Fifo(lots, f.symbol, f.quantity)
  }

  lemma UpdatedIsUpdate(lots: seq<Lot>, fill: Option<Fill>)
    ensures IsUpdate(lots, fill, Updated(lots, fill))
  {
    if fill.Some? && fill.value.side != "BUY" && ValidLots(lots) && fill.value.quantity >= 0.0 {
      SellIsFifo(lots, fill.value.symbol, fill.value.quantity);
    }
  }

  // ----- whole sequences of fills

  function After(lots: seq<Lot>, fills: seq<Fill>): seq<Lot>
    decreases |fills|
  {
    if fills == [] then lots else After(Updated(lots, Some(fills[0])), fills[1..])
  }

  /** A purchase of something, or a sale within what is held. */
  predicate Coverable(lots: seq<Lot>, f: Fill) {
    if f.side == "BUY" then !IsBlank(f.symbol) && f.quantity > 0.0 else 0.0 <= f.quantity <= Held(lots, f.symbol)
  }

  /** Every sale is within what is held when its turn comes. */
  predicate Covered(lots: seq<Lot>, fills: seq<Fill>)
    decreases |fills|
  {
    fills == [] || (Coverable(lots, fills[0]) && Covered(Updated(lots, Some(fills[0])), fills[1..]))
  }

  /** Bought minus sold. */
  function Net(fills: seq<Fill>, symbol: string): real {
    if fills == [] then 0.0
    else (if fills[0].symbol != symbol then 0.0 else if fills[0].side == "BUY" then fills[0].quantity
          else -fills[0].quantity)
         + Net(fills[1..], symbol)
  }

  lemma FillConserves(lots: seq<Lot>, f: Fill, symbol: string)
    requires ValidLots(lots) && Coverable(lots, f)
    ensures ValidLots(Updated(lots, Some(f)))
    ensures Held(Updated(lots, Some(f)), symbol) == Held(lots, symbol) + Net([f], symbol)
  {
    assert Net([f][1..], symbol) == 0.0;
    if f.side == "BUY" {
      var lot := Lot(f.symbol, f.quantity, f.moment, SETTLED_CASH, None, f.quantity);
      assert Held([lot][1..], symbol) == 0.0;
      HeldConcat(lots, [lot], symbol);
    } else {
      SellKeepsValid(lots, f.symbol, f.quantity);
      SellConserves(lots, f.symbol, f.quantity);
      if symbol != f.symbol {
        SellLeavesOthers(lots, f.symbol, f.quantity, symbol);
      }
    }
  }

  /** Over any run of purchases and covered sales, each symbol's total changes by bought minus sold. */
  lemma {:induction false} TradingConserves(lots: seq<Lot>, fills: seq<Fill>, symbol: string)
    requires ValidLots(lots) && Covered(lots, fills)
    ensures ValidLots(After(lots, fills)) && Held(After(lots, fills), symbol) == Held(lots, symbol) + Net(fills, symbol)
    decreases |fills|
  {
    if fills != [] {
      FillConserves(lots, fills[0], symbol);
      assert Net([fills[0]][1..], symbol) == 0.0;
      TradingConserves(Updated(lots, Some(fills[0])), fills[1..], symbol);
    }
  }
}
