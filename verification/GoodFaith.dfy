/** Cash-settlement checks on explicit sell requests, and the ledger of purchases that they read. */
module GoodFaith {
  import opened Numbers
  import opened PurchaseLots
  import opened SettlementCalendar
  import opened Text
  import opened Wrappers

  datatype AccountType = CASH | MARGIN

  predicate LotIsSafe(lot: Lot, today: Date) {
    match lot.funding
    case SETTLED_CASH => true
    case UNKNOWN => false
    case _ => lot.settlementDate.Some? && today >= lot.settlementDate.value
  }

  function SafeQuantity(lots: seq<Lot>, today: Date): real {
    if lots == [] then 0.0
    else (if LotIsSafe(lots[0], today) then lots[0].remaining else 0.0) + SafeQuantity(lots[1..], today)
  }

  function Total(lots: seq<Lot>): real {
    if lots == [] then 0.0 else lots[0].remaining + Total(lots[1..])
  }

  function Matching(lots: seq<Lot>, symbol: string): seq<Lot> {
    if lots == [] then []
    else (if Normalize(lots[0].symbol) == symbol then [lots[0]] else []) + Matching(lots[1..], symbol)
  }

  // ----- the earliest safe date

  /** Restricted today, but with a known date from which it will be safe. */
  predicate IsDated(lot: Lot, today: Date) {
    !LotIsSafe(lot, today) && !lot.funding.UNKNOWN? && lot.settlementDate.Some?
  }

  function Dated(lots: seq<Lot>, today: Date): (r: seq<Lot>)
    ensures forall i :: 0 <= i < |r| ==> IsDated(r[i], today)
  {
    if lots == [] then [] else (if IsDated(lots[0], today) then [lots[0]] else []) + Dated(lots[1..], today)
  }

  const LAST_DATE: Date := 3652059

  /** The sort key: a missing date counts as the last date there is. */
  function DateKey(lot: Lot): Date {
    if lot.settlementDate.Some? then lot.settlementDate.value else LAST_DATE
  }

  /** Inserts before the first lot that is not strictly earlier, so equal dates keep their order. */
  function Insert(lot: Lot, sorted: seq<Lot>): seq<Lot> {
    if sorted == [] || DateKey(lot) <= DateKey(sorted[0]) then [lot] + sorted
    else [sorted[0]] + Insert(lot, sorted[1..])
  }

  /** Stable sort by settlement date. */
  function SortedByDate(lots: seq<Lot>): seq<Lot> {
    if lots == [] then [] else Insert(lots[0], SortedByDate(lots[1..]))
  }

  ghost predicate InOrder(lots: seq<Lot>) {
    forall i, j :: 0 <= i < j < |lots| ==> DateKey(lots[i]) <= DateKey(lots[j])
  }

  /** How much of dated lots has become safe by `d`. */
  function DueBy(lots: seq<Lot>, d: Date): real {
    if lots == [] then 0.0
    else (if DateKey(lots[0]) <= d then lots[0].remaining else 0.0) + DueBy(lots[1..], d)
  }

  lemma {:induction false} InsertKeepsOrder(lot: Lot, sorted: seq<Lot>)
    requires InOrder(sorted)
    ensures InOrder(Insert(lot, sorted))
    ensures forall x :: x in Insert(lot, sorted) ==> x == lot || x in sorted
    decreases |sorted|
  {
    if sorted != [] && DateKey(lot) > DateKey(sorted[0]) {
      InsertKeepsOrder(lot, sorted[1..]);
      var rest := Insert(lot, sorted[1..]);
      forall i | 0 <= i < |rest| ensures DateKey(sorted[0]) <= DateKey(rest[i]) {
        assert rest[i] == lot || rest[i] in sorted[1..];
      }
    }
  }

  lemma {:induction false} InsertKeepsDue(lot: Lot, sorted: seq<Lot>, d: Date)
    ensures DueBy(Insert(lot, sorted), d) == (if DateKey(lot) <= d then lot.remaining else 0.0) + DueBy(sorted, d)
    decreases |sorted|
  {
    if sorted != [] && DateKey(lot) > DateKey(sorted[0]) {
      InsertKeepsDue(lot, sorted[1..], d);
      assert ([sorted[0]] + Insert(lot, sorted[1..]))[1..] == Insert(lot, sorted[1..]);
    } else {
      assert ([lot] + sorted)[1..] == sorted;
    }
  }

  lemma {:induction false} SortFacts(lots: seq<Lot>, d: Date)
    ensures InOrder(SortedByDate(lots)) && DueBy(SortedByDate(lots), d) == DueBy(lots, d)
    ensures forall lot :: lot in SortedByDate(lots) ==> lot in lots
    decreases |lots|
  {
    if lots != [] {
      SortFacts(lots[1..], d);
      InsertKeepsOrder(lots[0], SortedByDate(lots[1..]));
      InsertKeepsDue(lots[0], SortedByDate(lots[1..]), d);
    }
  }

  /** Later dates can only make more safe: what is safe today plus what falls due until then. */
  lemma {:induction false} SafeSplits(lots: seq<Lot>, today: Date, d: Date)
    requires ValidLots(lots)
    ensures today <= d ==> SafeQuantity(lots, d) == SafeQuantity(lots, today) + DueBy(Dated(lots, today), d)
    ensures d <= today ==> SafeQuantity(lots, d) <= SafeQuantity(lots, today)
    decreases |lots|
  {
    if lots != [] {
      assert ValidLot(lots[0]);
      SafeSplits(lots[1..], today, d);
      if IsDated(lots[0], today) {
        assert ([lots[0]] + Dated(lots[1..], today))[1..] == Dated(lots[1..], today);
      } else {
        assert [] + Dated(lots[1..], today) == Dated(lots[1..], today);
      }
    }
  }

  /** In date order, what is due by `d` is at least the lots up to `i` when those are due by then, and at
      most those before `i` when the rest is not. */
  lemma {:induction false} DueInOrder(lots: seq<Lot>, i: nat, d: Date)
    requires InOrder(lots) && ValidLots(lots) && i <= |lots|
    ensures (forall k :: 0 <= k < i ==> DateKey(lots[k]) <= d) ==> DueBy(lots, d) >= Total(lots[..i])
    ensures (forall k :: i <= k < |lots| ==> DateKey(lots[k]) > d) ==> DueBy(lots, d) <= Total(lots[..i])
    decreases |lots|
  {
    if i > 0 {
      DueInOrder(lots[1..], i - 1, d);
      assert lots[..i][1..] == lots[1..][..i - 1];
    } else {
      DueIsBounded(lots, d);
    }
  }

  lemma {:induction false} DueIsBounded(lots: seq<Lot>, d: Date)
    requires ValidLots(lots)
    ensures DueBy(lots, d) >= 0.0
    ensures (forall k :: 0 <= k < |lots| ==> DateKey(lots[k]) > d) ==> DueBy(lots, d) == 0.0
    decreases |lots|
  {
    if lots != [] {
      DueIsBounded(lots[1..], d);
    }
  }

  /** The date that the walk over the sorted lots reports. */
  function FirstReach(available: real, sorted: seq<Lot>, requested: real): Option<Date>
    decreases |sorted|
  {
    if sorted == [] then None
    else if available + sorted[0].remaining >= requested then sorted[0].settlementDate
    else FirstReach(available + sorted[0].remaining, sorted[1..], requested)
  }

  function DateWhenSafe(lots: seq<Lot>, today: Date, requested: real): Option<Date> {
    if SafeQuantity(lots, today) >= requested then Some(today)
    else FirstReach(SafeQuantity(lots, today), SortedByDate(Dated(lots, today)), requested)
  }

  method DateWhenQuantityIsSafe(lots: seq<Lot>, today: Date, requested: real) returns (r: Option<Date>)
    ensures r == DateWhenSafe(lots, today, requested)
  {
    var available := SafeQuantity(lots, today);
    if available >= requested {
      return Some(today);
    }
    var dated := SortedByDate(Dated(lots, today));
    for i := 0 to |dated|
      invariant FirstReach(available, dated[i..], requested) == DateWhenSafe(lots, today, requested)
    {
      assert dated[i..][0] == dated[i] && dated[i..][1..] == dated[i + 1..];
      available := available + dated[i].remaining;
      if available >= requested {
        return dated[i].settlementDate;
      }
    }
    return None;
  }

  lemma {:induction false} TotalSnoc(lots: seq<Lot>, i: nat)
    requires i < |lots|
    ensures Total(lots[..i + 1]) == Total(lots[..i]) + lots[i].remaining
    decreases i
  {
    if i == 0 {
      assert lots[..1][1..] == [];
    } else {
      assert lots[..i + 1][1..] == lots[1..][..i] && lots[..i][1..] == lots[1..][..i - 1];
      TotalSnoc(lots[1..], i - 1);
    }
  }

  /** Where the walk stops: the lots before that point do not suffice, those up to it do. */
  lemma {:induction false} ReachPoint(available: real, sorted: seq<Lot>, i: nat, requested: real) returns (k: nat)
    requires i <= |sorted|
    requires available + Total(sorted[..i]) < requested
    ensures i <= k <= |sorted| && available + Total(sorted[..k]) < requested
    ensures var r := FirstReach(available + Total(sorted[..i]), sorted[i..], requested);
      if k == |sorted| then r.None?
      else r == sorted[k].settlementDate && available + Total(sorted[..k + 1]) >= requested
    decreases |sorted| - i
  {
    k := i;
    if i < |sorted| {
      TotalSnoc(sorted, i);
      assert sorted[i..][0] == sorted[i] && sorted[i..][1..] == sorted[i + 1..];
      if available + Total(sorted[..i + 1]) < requested {
        k := ReachPoint(available, sorted, i + 1, requested);
      }
    }
  }

  /** The sorted dated lots: in order, valid, dated, and worth the same at every date. */
  lemma SortedDatedFacts(lots: seq<Lot>, today: Date, d: Date)
    requires ValidLots(lots)
    ensures var sorted := SortedByDate(Dated(lots, today));
      && InOrder(sorted) && ValidLots(sorted) && DueBy(sorted, d) == DueBy(Dated(lots, today), d)
      && forall i :: 0 <= i < |sorted| ==> IsDated(sorted[i], today)
  {
    DatedIsSublist(lots, today);
    SortFacts(Dated(lots, today), d);
    var sorted := SortedByDate(Dated(lots, today));
    forall i | 0 <= i < |sorted| ensures ValidLot(sorted[i]) && IsDated(sorted[i], today) {
      assert sorted[i] in Dated(lots, today);
    }
  }

  lemma {:induction false} DatedIsSublist(lots: seq<Lot>, today: Date)
    ensures forall lot :: lot in Dated(lots, today) ==> lot in lots
    decreases |lots|
  {
    if lots != [] {
      DatedIsSublist(lots[1..], today);
    }
  }

  /** The walk over ordered dated lots stops at the first date by which enough has fallen due. */
  lemma ReachIsThreshold(available: real, sorted: seq<Lot>, requested: real, d: Date)
    requires InOrder(sorted) && ValidLots(sorted) && available < requested
    requires forall i :: 0 <= i < |sorted| ==> sorted[i].settlementDate.Some?
    ensures var r := FirstReach(available, sorted, requested);
      available + DueBy(sorted, d) >= requested <==> r.Some? && d >= r.value
  {
    assert sorted[..0] == [] && sorted[0..] == sorted;
    var k := ReachPoint(available, sorted, 0, requested);
    DueInOrder(sorted, k, d);
    if k == |sorted| {
      assert sorted[..k] == sorted;
    } else {
      DueInOrder(sorted, k + 1, d);
    }
  }

  /** The reported date is exactly the threshold: the safe quantity reaches the request on it and on every
      later date and on no earlier one. None means that no date ever suffices. */
  lemma EarliestSafeDate(lots: seq<Lot>, today: Date, requested: real, d: Date)
    requires ValidLots(lots) && SafeQuantity(lots, today) < requested
    ensures SafeQuantity(lots, d) >= requested
      <==> DateWhenSafe(lots, today, requested).Some? && d >= DateWhenSafe(lots, today, requested).value
  {
    var available := SafeQuantity(lots, today);
    var sorted := SortedByDate(Dated(lots, today));
    SortedDatedFacts(lots, today, d);
    ReachIsThreshold(available, sorted, requested, d);
    SafeSplits(lots, today, d);
    if d < today {
      SortedDatedFacts(lots, today, today);
      ReachIsThreshold(available, sorted, requested, today);
      SafeSplits(lots, today, today);
    }
  }

  // ----- evaluate_sell_compliance

  datatype Reason = MALFORMED | EXCEEDS_POSITION | MARGIN_ACCOUNT | GFV_SAFE | EXCEEDS_SAFE_QUANTITY

  datatype Decision = Decision(
    approved: bool, reason: Reason, requested: real, safe: real, restricted: real, nextDate: Option<Date>)

  /** The non-negativity that the decision's constructor demands. */
  predicate ConstructorAccepts(d: Decision) {
    d.requested >= 0.0 && d.safe >= 0.0 && d.restricted >= 0.0
  }

  /** `now` is None when the caller's timestamp has no zone. */
  predicate WellFormed(symbol: string, quantity: real, account: Option<AccountType>, now: Option<Moment>,
                       lots: seq<Lot>)
  {
    !IsBlank(symbol) && quantity > 0.0 && account.Some? && now.Some? && ValidLots(lots)
  }

  function EvaluateSell(symbol: string, quantity: real, account: Option<AccountType>, now: Option<Moment>,
                        lots: seq<Lot>): Decision
  {
    if !WellFormed(symbol, quantity, account, now, lots) then
      var reported := if quantity >= 0.0 then quantity else 0.0;
      Decision(false, MALFORMED, reported, 0.0, reported, None)
    else
      var matching := Matching(lots, Normalize(symbol));
      var total := Total(matching);
      var today := now.value.date;
      var safe := SafeQuantity(matching, today);
      if quantity > total then
        var offered := if account.value.MARGIN? then total else safe;
        Decision(false, EXCEEDS_POSITION, quantity, offered, quantity - offered, None)
      else if account.value.MARGIN? then Decision(true, MARGIN_ACCOUNT, quantity, total, 0.0, None)
      else if quantity <= safe then Decision(true, GFV_SAFE, quantity, safe, 0.0, None)
      else Decision(false, EXCEEDS_SAFE_QUANTITY, quantity, safe, Max(0.0, quantity - safe),
                    DateWhenSafe(matching, today, quantity))
  }

  lemma {:induction false} SafeIsBounded(lots: seq<Lot>, today: Date)
    requires ValidLots(lots)
    ensures 0.0 <= SafeQuantity(lots, today) <= Total(lots)
    decreases |lots|
  {
    if lots != [] {
      SafeIsBounded(lots[1..], today);
    }
  }

  lemma {:induction false} MatchingIsValid(lots: seq<Lot>, symbol: string)
    requires ValidLots(lots)
    ensures ValidLots(Matching(lots, symbol))
    decreases |lots|
  {
    if lots != [] {
      MatchingIsValid(lots[1..], symbol);
    }
  }

  /** The decision for every request: it can always be constructed, refuses what is malformed, never resizes
      the request, reports what is really safe and restricted, and approves a well-formed request exactly when
      the safe quantity covers it. */
  lemma DecisionIsRight(symbol: string, quantity: real, account: Option<AccountType>, now: Option<Moment>,
                        lots: seq<Lot>)
    ensures var d := EvaluateSell(symbol, quantity, account, now, lots);
      && ConstructorAccepts(d)
      && (!WellFormed(symbol, quantity, account, now, lots) ==> !d.approved && d.safe == 0.0 && d.nextDate.None?)
      && (WellFormed(symbol, quantity, account, now, lots) ==>
            var matching := Matching(lots, Normalize(symbol));
            && d.safe == (if account.value.MARGIN? then Total(matching) else SafeQuantity(matching, now.value.date))
            && d.requested == quantity && (d.approved <==> quantity <= d.safe)
            && d.restricted == (if d.approved then 0.0 else quantity - d.safe)
            && (d.nextDate.Some? ==> account.value.CASH? && d.safe < quantity <= Total(matching)))
  {
    if WellFormed(symbol, quantity, account, now, lots) {
      MatchingIsValid(lots, Normalize(symbol));
      SafeIsBounded(Matching(lots, Normalize(symbol)), now.value.date);
    }
  }

  /** What remains of the symbol's lots with this funding; where a date is given, only of those settled by then. */
  function Funded(lots: seq<Lot>, symbol: string, funding: FundingSource, settled: Option<Date>): real {
    if lots == [] then 0.0
    else
      var lot := lots[0];
      (if Normalize(lot.symbol) == symbol && lot.funding == funding
          && (settled.None? || (lot.settlementDate.Some? && lot.settlementDate.value <= settled.value))
       then lot.remaining else 0.0)
      + Funded(lots[1..], symbol, funding, settled)
  }

  /** Settled cash counts at once, sale proceeds and provisional deposits once settled, unknown funding never. */
  function GoodFunds(lots: seq<Lot>, symbol: string, today: Date): real {
    Funded(lots, symbol, SETTLED_CASH, None) + Funded(lots, symbol, UNSETTLED_SALE_PROCEEDS, Some(today))
    + Funded(lots, symbol, PROVISIONAL_DEPOSIT, Some(today))
  }

  function AllFunds(lots: seq<Lot>, symbol: string): real {
    Funded(lots, symbol, SETTLED_CASH, None) + Funded(lots, symbol, UNSETTLED_SALE_PROCEEDS, None)
    + Funded(lots, symbol, PROVISIONAL_DEPOSIT, None) + Funded(lots, symbol, UNKNOWN, None)
  }

  lemma {:induction false} SafeByFunding(lots: seq<Lot>, symbol: string, today: Date)
    ensures SafeQuantity(Matching(lots, symbol), today) == GoodFunds(lots, symbol, today)
    decreases |lots|
  {
    if lots != [] {
      SafeByFunding(lots[1..], symbol, today);
      var rest := Matching(lots[1..], symbol);
      assert ([lots[0]] + rest)[1..] == rest && [] + rest == rest;
    }
  }

  lemma {:induction false} TotalByFunding(lots: seq<Lot>, symbol: string)
    ensures Total(Matching(lots, symbol)) == AllFunds(lots, symbol)
    decreases |lots|
  {
    if lots != [] {
      TotalByFunding(lots[1..], symbol);
      var rest := Matching(lots[1..], symbol);
      assert ([lots[0]] + rest)[1..] == rest && [] + rest == rest;
    }
  }

  lemma SumsByFunding(lots: seq<Lot>, symbol: string, today: Date)
    ensures SafeQuantity(Matching(lots, symbol), today) == GoodFunds(lots, symbol, today)
    ensures Total(Matching(lots, symbol)) == AllFunds(lots, symbol)
  {
    SafeByFunding(lots, symbol, today);
    TotalByFunding(lots, symbol);
  }

  /** What a request must be to be decided on at all. */
  predicate Decidable(symbol: string, quantity: real, account: Option<AccountType>, now: Option<Moment>,
                      lots: seq<Lot>)
  {
    && !IsBlank(symbol) && quantity > 0.0 && account.Some? && now.Some?
    && forall i :: 0 <= i < |lots| ==>
         !IsBlank(lots[i].symbol) && lots[i].quantity > 0.0 && 0.0 <= lots[i].remaining <= lots[i].quantity
  }

  /** The decision by the funding of the lots: a cash sale is approved exactly up to the good funds, a margin sale
      up to the position; the reason and the quantities say which of these stood in the way. */
  lemma DecisionByFunding(symbol: string, quantity: real, account: Option<AccountType>, now: Option<Moment>,
                          lots: seq<Lot>)
    ensures var d, key := EvaluateSell(symbol, quantity, account, now, lots), Normalize(symbol);
      if !Decidable(symbol, quantity, account, now, lots) then
        d == Decision(false, MALFORMED, Max(quantity, 0.0), 0.0, Max(quantity, 0.0), None)
      else
        var held, safe := AllFunds(lots, key), GoodFunds(lots, key, now.value.date);
        match account.value
        case MARGIN =>
          d == if quantity <= held then Decision(true, MARGIN_ACCOUNT, quantity, held, 0.0, None)
               else Decision(false, EXCEEDS_POSITION, quantity, held, quantity - held, None)
        case CASH =>
          && (quantity <= safe ==> d == Decision(true, GFV_SAFE, quantity, safe, 0.0, None))
          && (safe < quantity <= held ==>
                d == Decision(false, EXCEEDS_SAFE_QUANTITY, quantity, safe, quantity - safe, d.nextDate))
          && (quantity > held ==> d == Decision(false, EXCEEDS_POSITION, quantity, safe, quantity - safe, None))
  {
    if Decidable(symbol, quantity, account, now, lots) {
      assert ValidLots(lots);
      var matching := Matching(lots, Normalize(symbol));
      SumsByFunding(lots, Normalize(symbol), now.value.date);
      MatchingIsValid(lots, Normalize(symbol));
      SafeIsBounded(matching, now.value.date);
    }
  }

  /** The next eligible date of a refused cash sale is the first on which the good funds reach the request. */
  lemma NextDateByFunding(symbol: string, quantity: real, now: Moment, lots: seq<Lot>, d: Date)
    requires Decidable(symbol, quantity, Some(CASH), Some(now), lots)
    requires GoodFunds(lots, Normalize(symbol), now.date) < quantity <= AllFunds(lots, Normalize(symbol))
    ensures var next := EvaluateSell(symbol, quantity, Some(CASH), Some(now), lots).nextDate;
      GoodFunds(lots, Normalize(symbol), d) >= quantity <==> next.Some? && d >= next.value
  {
    assert ValidLots(lots);
    var matching := Matching(lots, Normalize(symbol));
    SumsByFunding(lots, Normalize(symbol), now.date);
    SumsByFunding(lots, Normalize(symbol), d);
    MatchingIsValid(lots, Normalize(symbol));
    EarliestSafeDate(matching, now.date, quantity, d);
  }

  /** The next eligible date, asked on that date, is when the refused sale would first be approved. */
  lemma NextDateIsFirstApproval(symbol: string, quantity: real, now: Moment, lots: seq<Lot>, later: Moment)
    requires WellFormed(symbol, quantity, Some(CASH), Some(now), lots)
    requires EvaluateSell(symbol, quantity, Some(CASH), Some(now), lots).reason == EXCEEDS_SAFE_QUANTITY
    ensures var next := EvaluateSell(symbol, quantity, Some(CASH), Some(now), lots).nextDate;
      EvaluateSell(symbol, quantity, Some(CASH), Some(later), lots).approved <==> next.Some? && later.date >= next.value
  {
    var matching := Matching(lots, Normalize(symbol));
    MatchingIsValid(lots, Normalize(symbol));
    EarliestSafeDate(matching, now.date, quantity, later.date);
    SafeIsBounded(matching, later.date);
  }

  // ----- the ledger

  datatype SecurityType = STOCK | OPTION | OTHER_SECURITY

  /** A lot bought with the proceeds of a sale on `trade`; None is the source's ValueError. */
  method RecordPurchaseFundedBySale(lots: seq<Lot>, symbol: string, quantity: real, purchased: Moment, trade: Date,
                                    security: SecurityType, holidays: set<Date>) returns (r: Option<seq<Lot>>)
    ensures r.Some? <==> !security.OTHER_SECURITY? && !IsBlank(Normalize(symbol)) && quantity > 0.0
    ensures r.Some? ==> |r.value| == |lots| + 1 && r.value[..|lots|] == lots
    ensures r.Some? ==> FundedBySale(r.value[|lots|], trade, holidays)
    ensures r.Some? ==> r.value[|lots|].symbol == Normalize(symbol)
    ensures r.Some? ==> r.value[|lots|].quantity == r.value[|lots|].remaining == quantity
    ensures r.Some? ==> r.value[|lots|].purchased == purchased
  {
    if security.OTHER_SECURITY? {
      return None;
    }
    var settlement := AddMarketBusinessDays(holidays, trade, 1);
    if IsBlank(Normalize(symbol)) || quantity <= 0.0 {
      return None;
    }
    return Some(lots + [Lot(Normalize(symbol), quantity, purchased, UNSETTLED_SALE_PROCEEDS, settlement, quantity)]);
  }

  ghost predicate FundedBySale(lot: Lot, trade: Date, holidays: set<Date>) {
    && lot.funding.UNSETTLED_SALE_PROCEEDS? && lot.settlementDate.Some?
    && IsNthBusinessDay(holidays, trade, 1, lot.settlementDate.value)
  }

  /** T+1 end to end: the lot is restricted on every date before the first market business day after the
      funding sale and safe from that day on. */
  lemma FundedLotSafeFromNextBusinessDay(lot: Lot, trade: Date, holidays: set<Date>, d: Date)
    requires FundedBySale(lot, trade, holidays)
    ensures LotIsSafe(lot, d) <==> exists b :: trade < b <= d && IsMarketBusinessDay(holidays, b)
  {
    var settlement := lot.settlementDate.value;
    SettlesOnNextBusinessDay(holidays, trade, settlement);
    if LotIsSafe(lot, d) {
      assert trade < settlement <= d && IsMarketBusinessDay(holidays, settlement);
    }
  }

  // ----- approval and consumption together

  /** Lots whose symbols are stored in normal form, as the ledger and the simulator store them. */
  predicate Normalized(lots: seq<Lot>) {
    forall i :: 0 <= i < |lots| ==> lots[i].symbol == Normalize(lots[i].symbol)
  }

  lemma {:induction false} MatchingTotal(lots: seq<Lot>, symbol: string)
    requires Normalized(lots)
    ensures Held(lots, symbol) == Total(Matching(lots, symbol))
    decreases |lots|
  {
    if lots != [] {
      MatchingTotal(lots[1..], symbol);
      var rest := Matching(lots[1..], symbol);
      assert ([lots[0]] + rest)[1..] == rest && [] + rest == rest;
      assert lots[0].symbol == Normalize(lots[0].symbol);
    }
  }

  /** An approved sale, once filled, takes exactly the approved quantity off its symbol and nothing else,
      provided the lots' symbols are in normal form. */
  lemma ApprovedSaleConserves(symbol: string, quantity: real, account: Option<AccountType>, now: Option<Moment>,
                              lots: seq<Lot>, fill: Fill, other: string)
    requires EvaluateSell(symbol, quantity, account, now, lots).approved && Normalized(lots)
    requires fill.symbol == Normalize(symbol) && fill.side != "BUY" && fill.quantity == quantity
    ensures Held(Updated(lots, Some(fill)), fill.symbol) == Held(lots, fill.symbol) - quantity
    ensures other != fill.symbol ==> Held(Updated(lots, Some(fill)), other) == Held(lots, other)
    ensures ValidLots(Updated(lots, Some(fill)))
  {
    DecisionIsRight(symbol, quantity, account, now, lots);
    MatchingTotal(lots, fill.symbol);
    MatchingIsValid(lots, fill.symbol);
    SafeIsBounded(Matching(lots, fill.symbol), now.value.date);
    SellConserves(lots, fill.symbol, quantity);
    SellKeepsValid(lots, fill.symbol, quantity);
    if other != fill.symbol {
      SellLeavesOthers(lots, fill.symbol, quantity, other);
    }
  }

  /** A purchase under a normal symbol, or a sale of a quantity that was approved on these lots at some time. */
  ghost predicate ApprovedFill(account: AccountType, lots: seq<Lot>, f: Fill) {
    if f.side == "BUY" then !IsBlank(f.symbol) && f.symbol == Normalize(f.symbol) && f.quantity > 0.0
    else
      exists symbol, now ::
        EvaluateSell(symbol, f.quantity, Some(account), Some(now), lots).approved && f.symbol == Normalize(symbol)
  }

  ghost predicate ApprovedRun(account: AccountType, lots: seq<Lot>, fills: seq<Fill>)
    decreases |fills|
  {
    fills == [] || (ApprovedFill(account, lots, fills[0])
                    && ApprovedRun(account, Updated(lots, Some(fills[0])), fills[1..]))
  }

  lemma {:induction false} SellKeepsNormalized(lots: seq<Lot>, symbol: string, quantity: real)
    requires Normalized(lots)
    ensures Normalized(Sell(lots, symbol, quantity))
    decreases |lots|
  {
    if lots != [] {
      SellKeepsNormalized(lots[1..], symbol, quantity - Used(lots[0], symbol, quantity));
    }
  }

  /** An approved fill is covered, and leaves normalised lots. */
  lemma ApprovedIsCoverable(account: AccountType, lots: seq<Lot>, f: Fill)
    requires Normalized(lots) && ApprovedFill(account, lots, f)
    ensures Coverable(lots, f) && Normalized(Updated(lots, Some(f)))
  {
    if f.side != "BUY" {
      var symbol, now :| EvaluateSell(symbol, f.quantity, Some(account), Some(now), lots).approved
        && f.symbol == Normalize(symbol);
      DecisionIsRight(symbol, f.quantity, Some(account), Some(now), lots);
      MatchingTotal(lots, f.symbol);
      MatchingIsValid(lots, f.symbol);
      SafeIsBounded(Matching(lots, f.symbol), now.date);
      SellKeepsNormalized(lots, f.symbol, f.quantity);
    }
  }

  lemma {:induction false} ApprovedRunIsCovered(account: AccountType, lots: seq<Lot>, fills: seq<Fill>)
    requires Normalized(lots) && ApprovedRun(account, lots, fills)
    ensures Covered(lots, fills) && Normalized(After(lots, fills))
    decreases |fills|
  {
    if fills != [] {
      ApprovedIsCoverable(account, lots, fills[0]);
      ApprovedRunIsCovered(account, Updated(lots, Some(fills[0])), fills[1..]);
    }
  }

  /** Over any run of purchases and approved sales on normalised lots, each symbol's total changes by bought
      minus sold, and the lots stay normalised and valid. */
  lemma ApprovedTradingConserves(account: AccountType, lots: seq<Lot>, fills: seq<Fill>, symbol: string)
    requires ValidLots(lots) && Normalized(lots) && ApprovedRun(account, lots, fills)
    ensures ValidLots(After(lots, fills)) && Normalized(After(lots, fills))
    ensures Held(After(lots, fills), symbol) == Held(lots, symbol) + Net(fills, symbol)
  {
    ApprovedRunIsCovered(account, lots, fills);
    TradingConserves(lots, fills, symbol);
  }

  /** In general the filled sale takes exactly its quantity if and only if that much is held under exactly
      the fill's spelling of the symbol. */
  lemma FilledSaleExactIff(lots: seq<Lot>, fill: Fill)
    requires ValidLots(lots) && fill.side != "BUY" && fill.quantity > 0.0
    ensures Held(Updated(lots, Some(fill)), fill.symbol) == Held(lots, fill.symbol) - fill.quantity
      <==> fill.quantity <= Held(lots, fill.symbol)
  {
    SellConserves(lots, fill.symbol, fill.quantity);
  }

  /** Approval (which normalises symbols) and consumption (which compares them as they are)
      disagree on lots out of normal form: this sale is approved and then takes nothing. */
  lemma UnnormalizedLotIsApprovedButNotConsumed(now: Moment)
    ensures var lots := [Lot("f", 5.0, now, SETTLED_CASH, None, 5.0)];
      && EvaluateSell("F", 5.0, Some(CASH), Some(now), lots).approved
      && Held(Updated(lots, Some(Fill("F", "SELL", 5.0, now))), "f") == 5.0
  {
    var lots := [Lot("f", 5.0, now, SETTLED_CASH, None, 5.0)];
    NormalizeLetter('f');
    NormalizeLetter('F');
    assert lots[1..] == [] && Matching(lots[1..], "F") == [];
    assert Normalize("f") == "F";
    assert Matching(lots, "F") == lots;
    assert SafeQuantity(lots[1..], now.date) == 0.0 && Total(lots[1..]) == 0.0;
    assert ValidLot(lots[0]);
    assert EvaluateSell("F", 5.0, Some(CASH), Some(now), lots).approved;
    var sold := Sell(lots, "F", 5.0);
    assert Sell(lots[1..], "F", 5.0) == [];
    assert sold == lots;
    assert Held(lots[1..], "f") == 0.0;
  }
}
